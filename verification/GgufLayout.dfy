// The file layout of tools/convert_bitnet_embedding.py (273-325) and tools/gguf_write.py:
// planned offsets, alignment, and where each payload ends up.
module GgufLayout {
  import opened Arithmetic
  import opened Results
  import opened TernaryPacking

  const ALIGN: nat := 32

  /** A planned tensor and what its emitter produces, None when it gives up. */
  datatype OutTensor = OutTensor(name: string, nbytes: nat, data: Option<seq<Byte>>)

  datatype WriteError = EmitFailed(index: nat) | WrongSize(index: nat)

  function Aligned(n: nat): nat { (n + ALIGN - 1) / ALIGN * ALIGN }

  function Zeros(n: nat): seq<Byte> { seq(n, _ => 0) }

  /** Python's -n % ALIGN. */
  function Padding(n: int): nat { (0 - n) % ALIGN }

  // ---- planning ------------------------------------------------------------------------

  /** The offset of tensor i in the data section. */
  function Offset(ts: seq<OutTensor>, i: nat): nat
    requires i <= |ts|
    decreases i
  {
    if i == 0 then 0 else Offset(ts, i - 1) + Aligned(ts[i - 1].nbytes)
  }

  lemma {:induction false} OffsetsAligned(ts: seq<OutTensor>, i: nat)
    requires i <= |ts|
    ensures Offset(ts, i) % ALIGN == 0
    decreases i
  {
    if i == 0 {
    } else {
      OffsetsAligned(ts, i - 1);
      hide Aligned, Offset;
      SumAligned(Offset(ts, i - 1), Aligned(ts[i - 1].nbytes));
    }
  }

  lemma SumAligned(a: nat, b: nat)
    requires a % ALIGN == 0 && b % ALIGN == 0
    ensures (a + b) % ALIGN == 0
  {
  }

  /** The planned ranges are disjoint and in order. */
  lemma {:induction false} RangesDisjoint(ts: seq<OutTensor>, i: nat, j: nat)
    requires i < j <= |ts|
    ensures Offset(ts, i) + ts[i].nbytes <= Offset(ts, j)
    decreases j
  {
    if i < j - 1 {
      RangesDisjoint(ts, i, j - 1);
    }
  }

  /** The plan starts at 0 and leaves less than 32 bytes free after a tensor, as few as put the
      next one at a multiple of 32. */
  lemma PlanIsTight(ts: seq<OutTensor>, i: nat)
    requires i < |ts|
    ensures Offset(ts, 0) == 0 && Offset(ts, i) % 32 == 0
    ensures 0 <= Offset(ts, i + 1) - (Offset(ts, i) + ts[i].nbytes) < 32
  {
    OffsetsAligned(ts, i);
  }

  // ---- the file ---------------------------------------------------------------------------

  type Encoder = (OutTensor, nat) -> seq<Byte>

  /** The tensor infos in the order of the tensors, each with its planned offset. */
  function Infos(ts: seq<OutTensor>, info: Encoder, n: nat): seq<Byte>
    requires n <= |ts|
    decreases n
  {
    if n == 0 then [] else Infos(ts, info, n - 1) + info(ts[n - 1], Offset(ts, n - 1))
  }

  function Padded(bytes: seq<Byte>): seq<Byte> { bytes + Zeros(Padding(|bytes|)) }

  function Header(meta: seq<Byte>, ts: seq<OutTensor>,
      info: Encoder): seq<Byte> { Padded(meta + Infos(ts, info, |ts|)) }

  predicate Emits(t: OutTensor) { t.data.Some? && |t.data.value| == t.nbytes }

  /** The data section of the first n tensors. */
  function Data(ts: seq<OutTensor>, n: nat): seq<Byte>
    requires n <= |ts| && forall i :: 0 <= i < n ==> Emits(ts[i])
    decreases n
  {
    if n == 0 then []
    else
      assert Emits(ts[n - 1]);
      Data(ts, n - 1) + Padded(ts[n - 1].data.value)
  }

  lemma PaddedSize(bytes: seq<Byte>)
    ensures |Padded(bytes)| == Aligned(|bytes|)
  {
    var n, q := |bytes|, (|bytes| + ALIGN - 1) / ALIGN;
    DivIs(0 - n, ALIGN, -q, q * ALIGN - n);
  }

  lemma {:induction false} DataSize(ts: seq<OutTensor>, n: nat)
    requires n <= |ts| && forall i :: 0 <= i < n ==> Emits(ts[i])
    ensures |Data(ts, n)| == Offset(ts, n)
    decreases n
  {
    hide Padded, Aligned;
    if n == 0 {
    } else {
      DataSize(ts, n - 1);
      assert Emits(ts[n - 1]);
      PaddedSize(ts[n - 1].data.value);
    }
  }

  /** Every payload stands at its planned offset of the data section. */
  lemma {:induction false} PayloadAt(ts: seq<OutTensor>, n: nat, i: nat)
    requires i < n <= |ts| && forall k :: 0 <= k < n ==> Emits(ts[k])
    ensures Offset(ts, i) + ts[i].nbytes <= |Data(ts, n)|
    ensures Data(ts, n)[Offset(ts, i)..Offset(ts, i) + ts[i].nbytes] == ts[i].data.value
    decreases n
  {
    DataSize(ts, n);
    DataSize(ts, n - 1);
    RangesDisjoint(ts, i, n);
    hide Padded, Offset, Aligned;
    var before := Data(ts, n - 1);
    assert Data(ts, n) == before + Padded(ts[n - 1].data.value);
    if i < n - 1 {
      PayloadAt(ts, n - 1, i);
    }
  }

  /** What stands between a payload and the next planned offset is zero. */
  lemma {:induction false} GapsAreZero(ts: seq<OutTensor>, n: nat, i: nat, k: nat)
    requires i < n <= |ts| && (forall k :: 0 <= k < n ==> Emits(ts[k]))
    requires Offset(ts, i) + ts[i].nbytes <= k < Offset(ts, i + 1)
    ensures k < |Data(ts, n)| && Data(ts, n)[k] == 0
    decreases n
  {
    DataSize(ts, n);
    DataSize(ts, n - 1);
    var before := Data(ts, n - 1);
    assert Data(ts, n) == before + Padded(ts[n - 1].data.value);
    if i < n - 1 {
      hide Padded, Offset, Aligned;
      GapsAreZero(ts, n - 1, i, k);
    } else {
      PaddedSize(ts[i].data.value);
    }
  }

  /** The header is the metadata, then every tensor's info with its planned offset, then as
      few zeros as make its length a multiple of 32. */
  lemma HeaderExactly(meta: seq<Byte>, ts: seq<OutTensor>, info: Encoder, i: nat)
    requires i < |ts|
    ensures var head, infos := Header(meta, ts, info), Infos(ts, info, |ts|);
      && meta + infos <= head && |head| % 32 == 0 && |head| - |meta + infos| < 32
      && (forall k :: |meta + infos| <= k < |head| ==> head[k] == 0)
      && Infos(ts, info, i) + info(ts[i], Offset(ts, i)) <= infos
      && Infos(ts, info, 0) == []
  {
    hide Infos;
    InfosGrow(ts, info, i + 1, |ts|);
    InfosOne(ts, info, i);
    PaddedSize(meta + Infos(ts, info, |ts|));
  }

  lemma InfosOne(ts: seq<OutTensor>, info: Encoder, i: nat)
    requires i < |ts|
    ensures Infos(ts, info, i + 1) == Infos(ts, info, i) + info(ts[i], Offset(ts, i)) && Infos(ts, info, 0) == []
  {
  }

  lemma {:induction false} InfosGrow(ts: seq<OutTensor>, info: Encoder, i: nat, n: nat)
    requires i <= n <= |ts|
    ensures Infos(ts, info, i) <= Infos(ts, info, n)
    decreases n
  {
    if i < n {
      InfosGrow(ts, info, i, n - 1);
    }
  }

  /** Header and data of the tensors before the first bad one. */
  ghost predicate Written(meta: seq<Byte>, ts: seq<OutTensor>, info: Encoder, out: seq<Byte>, n: nat) {
    && n <= |ts| && (forall i :: 0 <= i < n ==> Emits(ts[i]))
    && out == Header(meta, ts, info) + Data(ts, n)
  }

  method WriteGguf(meta: seq<Byte>, ts: seq<OutTensor>, info: Encoder)
    returns (out: seq<Byte>, error: Option<WriteError>)
    ensures error.None? <==> forall i :: 0 <= i < |ts| ==> Emits(ts[i])
    ensures error.None? ==> Written(meta, ts, info, out, |ts|)
    ensures error.Some? ==> error.value.index < |ts| && Written(meta, ts, info, out, error.value.index)
    ensures error.Some? ==> !Emits(ts[error.value.index])
    ensures error.Some? ==> (error.value.EmitFailed? <==> ts[error.value.index].data.None?)
  {
    hide Padded, Padding, Zeros, Aligned;
    var infos, offset := [], 0;
    for i := 0 to |ts|
      invariant infos == Infos(ts, info, i) && offset == Offset(ts, i)
    {
      infos := infos + info(ts[i], offset);
      offset := offset + Aligned(ts[i].nbytes);
    }
    out := Padded(meta + infos);
    assert out + [] == out;
    for i := 0 to |ts|
      invariant Written(meta, ts, info, out, i)
    {
      var t := ts[i];
      if t.data.None? {
        return out, Some(EmitFailed(i));
      }
      if |t.data.value| != t.nbytes {
        return out, Some(WrongSize(i));
      }
      assert out + Padded(t.data.value) == Header(meta, ts, info) + (Data(ts, i) + Padded(t.data.value));
      out := out + Padded(t.data.value);
    }
    error := None;
  }

  /** A reader that goes to the data section and adds a tensor's offset finds its payload,
      at an aligned place of the file. */
  lemma ReaderFinds(meta: seq<Byte>, ts: seq<OutTensor>, info: Encoder, out: seq<Byte>, i: nat)
    requires Written(meta, ts, info, out, |ts|) && i < |ts|
    ensures (|Header(meta, ts, info)| + Offset(ts, i)) % ALIGN == 0
    ensures |Header(meta, ts, info)| + Offset(ts, i) + ts[i].nbytes <= |out|
    ensures out[|Header(meta, ts, info)| + Offset(ts, i)..][..ts[i].nbytes] == ts[i].data.value
  {
    hide *;
    WrittenIs(meta, ts, info, out);
    var head := Header(meta, ts, info);
    var data := Data(ts, |ts|);
    var at := Offset(ts, i);
    PayloadAt(ts, |ts|, i);
    HeaderAligned(meta, ts, info);
    OffsetsAligned(ts, i);
    SumAligned(|head|, at);
  }

  lemma WrittenIs(meta: seq<Byte>, ts: seq<OutTensor>, info: Encoder, out: seq<Byte>)
    requires Written(meta, ts, info, out, |ts|)
    ensures (forall k :: 0 <= k < |ts| ==> Emits(ts[k])) && out == Header(meta, ts, info) + Data(ts, |ts|)
    ensures forall k :: 0 <= k < |ts| ==> ts[k].data.Some?
  {
  }

  lemma HeaderAligned(meta: seq<Byte>, ts: seq<OutTensor>, info: Encoder)
    ensures |Header(meta, ts, info)| % ALIGN == 0
  {
  }

  // ---- planned and emitted sizes -----------------------------------------------------------------

  /** The bytes planned for a ternary tensor: four elements a byte, and the scale. */
  function Planned(rows: nat, cols: nat): nat { rows * cols / 4 + 4 }

  /** A packed tensor and its scale are exactly the planned bytes, so a ternary tensor is
      never refused for its size. */
  lemma PackedAsPlanned(rows: nat, cols: nat, packed: seq<Byte>)
    requires cols % BLOCK_ELEMS == 0 && |packed| == rows * (cols / 4)
    ensures |packed| + 4 == Planned(rows, cols)
  {
    WholeBlocks(rows, cols);
    DivIs(rows * cols, 4, rows * (cols / 4), 0);
  }
}
