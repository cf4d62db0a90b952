// The I2_S packing of tools/convert_bitnet_embedding.py (130-178): four ternary weights
// a byte, and the decoder that undoes it.
module TernaryPacking {
  import opened Arithmetic
  import opened Results

  const BLOCK_ELEMS: nat := 256
  const BLOCK_BYTES: nat := 64

  // ---- where an element is ------------------------------------------------------------

  /** The place of an element: its row, block, half, group and lane. */
  datatype Place = Place(row: nat, block: nat, half: nat, group: nat, lane: nat)

  predicate InShape(rows: nat, cols: nat, p: Place) {
    p.row < rows && p.block < cols / BLOCK_ELEMS && p.half < 2 && p.group < 4 && p.lane < 32
  }

  /** Its index in the tensor of `cols` columns. */
  function Element(cols: nat, p: Place): nat {
    p.row * cols + (p.block * BLOCK_ELEMS + (p.half * 128 + (p.group * 32 + p.lane)))
  }

  /** The byte that holds it. */
  function ByteAt(cols: nat, p: Place): nat {
    p.row * (cols / 4) + (p.block * BLOCK_BYTES + (p.half * 32 + p.lane))
  }

  function PlaceOf(cols: nat, e: nat): Place
    requires cols > 0
  {
    Place(e / cols, e % cols / BLOCK_ELEMS, e % BLOCK_ELEMS / 128, e % 128 / 32, e % 32)
  }

  /** Element index and byte index without the shape: every 128 elements are 32 bytes. */
  function FlatElement(j: nat, g: nat): nat { j / 32 * 128 + (g * 32 + j % 32) }

  lemma RowSplit(row: nat, cols: nat)
    requires cols % BLOCK_ELEMS == 0
    ensures row * cols == row * (cols / BLOCK_ELEMS) * BLOCK_ELEMS
    ensures row * (cols / 4) == row * (cols / BLOCK_ELEMS) * BLOCK_BYTES
  {
    var blocks := cols / BLOCK_ELEMS;
    assert cols == blocks * BLOCK_ELEMS;
    assert cols / 4 == blocks * BLOCK_BYTES;
    Regroup(row, blocks, BLOCK_ELEMS);
    Regroup(row, blocks, BLOCK_BYTES);
  }

  lemma Regroup(a: nat, b: nat, c: nat)
    ensures a * (b * c) == a * b * c
  {
  }

  /** The shape does not matter for which byte and which field of it holds an element. */
  lemma FlatIs(cols: nat, p: Place)
    requires cols % BLOCK_ELEMS == 0 && p.half < 2 && p.group < 4 && p.lane < 32
    ensures Element(cols, p) == FlatElement(ByteAt(cols, p), p.group)
  {
    RowSplit(p.row, cols);
    var halves := (p.row * (cols / BLOCK_ELEMS) + p.block) * 2 + p.half;
    DivIs(ByteAt(cols, p), 32, halves, p.lane);
  }

  /** Places and element indices correspond one to one. */
  lemma PlacesAreElements(rows: nat, cols: nat, p: Place, e: nat)
    requires cols > 0 && cols % BLOCK_ELEMS == 0
    ensures InShape(rows, cols, p) ==> Element(cols, p) < rows * cols && PlaceOf(cols, Element(cols, p)) == p
    ensures e < rows * cols ==> InShape(rows, cols, PlaceOf(cols, e)) && Element(cols, PlaceOf(cols, e)) == e
  {
    if InShape(rows, cols, p) {
      PlaceElement(rows, cols, p);
    }
    if e < rows * cols {
      ElementPlace(rows, cols, e);
    }
  }

  lemma RowPart(rows: nat, cols: nat, row: nat, within: nat)
    requires within < cols
    ensures (row * cols + within) / cols == row && (row * cols + within) % cols == within
    ensures row < rows ==> row * cols + within < rows * cols
  {
    DivIs(row * cols + within, cols, row, within);
    if row < rows {
      MulMonotonic(cols, row + 1, rows);
    }
  }

  /** Whole blocks do not change the places within a block. */
  lemma LowPart(blocks: nat, within: nat)
    ensures (blocks * BLOCK_ELEMS + within) % BLOCK_ELEMS == within % BLOCK_ELEMS
    ensures (blocks * BLOCK_ELEMS + within) % 128 == within % 128
    ensures (blocks * BLOCK_ELEMS + within) % 32 == within % 32
  {
    SameRest(blocks, within, BLOCK_ELEMS);
    SameRest(blocks * 2, within, 128);
    SameRest(blocks * 8, within, 32);
  }

  lemma SameRest(k: nat, w: nat, d: nat)
    requires d > 0
    ensures (k * d + w) % d == w % d
  {
    assert k * d + w == (k + w / d) * d + w % d;
    DivIs(k * d + w, d, k + w / d, w % d);
  }

  lemma LowDigits(block: nat, half: nat, group: nat, lane: nat)
    requires half < 2 && group < 4 && lane < 32
    ensures var w := block * BLOCK_ELEMS + (half * 128 + (group * 32 + lane));
            w / BLOCK_ELEMS == block && w % BLOCK_ELEMS / 128 == half && w % 128 / 32 == group && w % 32 == lane
  {
    var r := group * 32 + lane;
    var m := half * 128 + r;
    var w := block * BLOCK_ELEMS + m;
    DivIs(w, BLOCK_ELEMS, block, m);
    DivIs(m, 128, half, r);
    DivIs(w, 128, block * 2 + half, r);
    DivIs(r, 32, group, lane);
    DivIs(w, 32, block * 8 + half * 4 + group, lane);
  }

  lemma PlaceElement(rows: nat, cols: nat, p: Place)
    requires cols > 0 && cols % BLOCK_ELEMS == 0 && InShape(rows, cols, p)
    ensures Element(cols, p) < rows * cols && PlaceOf(cols, Element(cols, p)) == p
  {
    var within := p.block * BLOCK_ELEMS + (p.half * 128 + (p.group * 32 + p.lane));
    RowPart(rows, cols, p.row, within);
    RowSplit(p.row, cols);
    LowPart(p.row * (cols / BLOCK_ELEMS), within);
    LowDigits(p.block, p.half, p.group, p.lane);
  }

  lemma ElementPlace(rows: nat, cols: nat, e: nat)
    requires cols > 0 && cols % BLOCK_ELEMS == 0 && e < rows * cols
    ensures InShape(rows, cols, PlaceOf(cols, e)) && Element(cols, PlaceOf(cols, e)) == e
  {
    hide InShape, Element, PlaceOf;
    var row, within := e / cols, e % cols;
    RowOf(rows, cols, e);
    RowSplit(row, cols);
    LowPart(row * (cols / BLOCK_ELEMS), within);
    Digits(cols, within);
    Placed(rows, cols, e, row, within);
  }

  lemma RowOf(rows: nat, cols: nat, e: nat)
    requires cols > 0 && e < rows * cols
    ensures e == e / cols * cols + e % cols && e / cols < rows
  {
    if e / cols >= rows {
      MulMonotonic(cols, rows, e / cols);
    }
  }

  lemma Placed(rows: nat, cols: nat, e: nat, row: nat, within: nat)
    requires cols > 0 && row == e / cols && within == e % cols && row < rows && e == row * cols + within
    requires e % BLOCK_ELEMS == within % BLOCK_ELEMS && e % 128 == within % 128 && e % 32 == within % 32
    requires within / BLOCK_ELEMS < cols / BLOCK_ELEMS
    requires within == within / BLOCK_ELEMS * BLOCK_ELEMS
                       + (within % BLOCK_ELEMS / 128 * 128 + (within % 128 / 32 * 32 + within % 32))
    requires within % BLOCK_ELEMS / 128 < 2 && within % 128 / 32 < 4
    ensures InShape(rows, cols, PlaceOf(cols, e)) && Element(cols, PlaceOf(cols, e)) == e
  {
  }

  lemma Digits(cols: nat, w: nat)
    requires cols % BLOCK_ELEMS == 0 && w < cols
    ensures w / BLOCK_ELEMS < cols / BLOCK_ELEMS
    ensures w == w / BLOCK_ELEMS * BLOCK_ELEMS + (w % BLOCK_ELEMS / 128 * 128 + (w % 128 / 32 * 32 + w % 32))
    ensures w % BLOCK_ELEMS / 128 < 2 && w % 128 / 32 < 4
  {
    var a, m := w / BLOCK_ELEMS, w % BLOCK_ELEMS;
    var h, r := m / 128, m % 128;
    var g, l := r / 32, r % 32;
    Rebuilt(w, a, m, h, r, g, l);
  }

  lemma Rebuilt(w: nat, a: nat, m: nat, h: nat, r: nat, g: nat, l: nat)
    requires w == a * BLOCK_ELEMS + m && m < BLOCK_ELEMS && m == h * 128 + r && r < 128 && r == g * 32 + l && l < 32
    ensures w % BLOCK_ELEMS == m && w % 128 == r && w % 32 == l && h < 2 && g < 4
  {
    DivIs(w, BLOCK_ELEMS, a, m);
    DivIs(w, 128, a * 2 + h, r);
    DivIs(w, 32, a * 8 + h * 4 + g, l);
  }

  // ---- four fields a byte -----------------------------------------------------------------

  type Byte = bv8

  function Shift(g: nat): (s: bv4)
    requires g < 4
    ensures s <= 6
  {
    (6 - 2 * g) as bv4
  }

  function Field(b: Byte, g: nat): Byte
    requires g < 4
  {
    (b >> Shift(g)) & 3
  }

  lemma FlatInjective(j: nat, g: nat, k: nat, h: nat)
    requires g < 4 && h < 4 && FlatElement(j, g) == FlatElement(k, h)
    ensures j == k && g == h
  {
  }

  lemma FlatWithin(j: nat, g: nat, n: nat)
    requires j < n && g < 4 && n % 32 == 0
    ensures FlatElement(j, g) < 4 * n
  {
  }

  lemma FlatReaches(e: nat, n: nat)
    requires e < 4 * n && n % 32 == 0
    ensures e / 128 * 32 + e % 32 < n && e % 128 / 32 < 4
    ensures FlatElement(e / 128 * 32 + e % 32, e % 128 / 32) == e
  {
    var j := e / 128 * 32 + e % 32;
    DivIs(e, 32, e / 128 * 4 + e % 128 / 32, e % 128 % 32);
    DivIs(j, 32, e / 128, e % 32);
  }

  // ---- packing ----------------------------------------------------------------------------

  predicate Codes(codes: seq<Byte>) { forall i :: 0 <= i < |codes| ==> codes[i] < 3 }

  /** The byte after the first g groups were OR-ed in. */
  function Partial(codes: seq<Byte>, j: nat, n: nat, g: nat): Byte
    requires n % 32 == 0 && |codes| == 4 * n && j < n && g <= 4
    decreases g
  {
    if g == 0 then 0
    else
      FlatWithin(j, g - 1, n);
      Partial(codes, j, n, g - 1) | (codes[FlatElement(j, g - 1)] << Shift(g - 1))
  }

  lemma PartialOne(codes: seq<Byte>, j: nat, n: nat, g: nat)
    requires n % 32 == 0 && |codes| == 4 * n && j < n && g < 4
    ensures FlatElement(j, g) < |codes|
    ensures Partial(codes, j, n, g + 1) == Partial(codes, j, n, g) | (codes[FlatElement(j, g)] << Shift(g))
  {
    hide FlatElement, Shift;
    FlatWithin(j, g, n);
  }

  lemma PartialIs(codes: seq<Byte>, j: nat, n: nat)
    requires n % 32 == 0 && |codes| == 4 * n && j < n && Codes(codes)
    ensures forall g :: 0 <= g < 4 ==>
      FlatElement(j, g) < |codes| && Field(Partial(codes, j, n, 4), g) == codes[FlatElement(j, g)]
  {
    hide FlatElement;
    FlatWithin(j, 0, n);
    FlatWithin(j, 1, n);
    FlatWithin(j, 2, n);
    FlatWithin(j, 3, n);
    var c0, c1, c2, c3 := codes[FlatElement(j, 0)], codes[FlatElement(j, 1)], codes[FlatElement(j, 2)],
        codes[FlatElement(j, 3)];
    assert Shift(0) == 6 && Shift(1) == 4 && Shift(2) == 2 && Shift(3) == 0;
    assert Partial(codes, j, n, 1) == 0 | (c0 << 6);
    assert Partial(codes, j, n, 2) == (0 | (c0 << 6)) | (c1 << 4);
    assert Partial(codes, j, n, 3) == ((0 | (c0 << 6)) | (c1 << 4)) | (c2 << 2);
    assert Partial(codes, j, n, 4) == (((0 | (c0 << 6)) | (c1 << 4)) | (c2 << 2)) | (c3 << 0);
  }

  /** Every field of every byte holds the code of its element. */
  ghost predicate IsPacked(codes: seq<Byte>, packed: seq<Byte>) {
    && |packed| % 32 == 0 && |codes| == 4 * |packed|
    && forall j, g :: 0 <= j < |packed| && 0 <= g < 4 ==>
         FlatElement(j, g) < |codes| && Field(packed[j], g) == codes[FlatElement(j, g)]
  }

  ghost predicate After(codes: seq<Byte>, packed: seq<Byte>, g: nat) {
    && |packed| % 32 == 0 && |codes| == 4 * |packed| && g <= 4
    && forall j :: 0 <= j < |packed| ==> packed[j] == Partial(codes, j, |packed|, g)
  }

  /** ORs one group of every block into its bytes. */
  method OrGroup(codes: seq<Byte>, packed: array<Byte>, g: nat)
    requires g < 4 && After(codes, packed[..], g)
    modifies packed
    ensures After(codes, packed[..], g + 1)
  {
    hide FlatElement, Shift, Partial;
    var n := packed.Length;
    forall j | 0 <= j < n
      ensures FlatElement(j, g) < |codes|
      ensures Partial(codes, j, n, g + 1) == packed[j] | (codes[FlatElement(j, g)] << Shift(g))
    {
      PartialOne(codes, j, n, g);
      assert packed[..][j] == packed[j];
    }
    forall j | 0 <= j < n {
      packed[j] := packed[j] | (codes[FlatElement(j, g)] << Shift(g));
    }
  }

  method Pack(codes: seq<Byte>) returns (packed: array<Byte>)
    requires |codes| % 128 == 0 && Codes(codes)
    ensures fresh(packed) && IsPacked(codes, packed[..])
  {
    hide IsPacked, After;
    packed := new Byte[|codes| / 4](_ => 0);
    NothingPacked(codes, packed[..]);
    for g := 0 to 4
      invariant After(codes, packed[..], g)
    {
      OrGroup(codes, packed, g);
    }
    AllPacked(codes, packed[..]);
  }

  lemma NothingPacked(codes: seq<Byte>, packed: seq<Byte>)
    requires |packed| % 32 == 0 && |codes| == 4 * |packed| && forall j :: 0 <= j < |packed| ==> packed[j] == 0
    ensures After(codes, packed, 0)
  {
    hide FlatElement;
  }

  lemma AllPacked(codes: seq<Byte>, packed: seq<Byte>)
    requires After(codes, packed, 4) && Codes(codes)
    ensures IsPacked(codes, packed)
  {
    hide FlatElement, Field, Partial;
    forall j, g | 0 <= j < |packed| && 0 <= g < 4
      ensures FlatElement(j, g) < |codes| && Field(packed[j], g) == codes[FlatElement(j, g)]
    {
      PartialIs(codes, j, |packed|);
      assert packed[j] == Partial(codes, j, |packed|, 4);
    }
  }

  // ---- the decoder -----------------------------------------------------------------------------

  function TritOf(b: Byte, g: nat): int
    requires g < 4
  {
    Field(b, g) as int - 1
  }

  ghost predicate IsUnpacked(packed: seq<Byte>, trits: seq<int>) {
    && |packed| % 32 == 0 && |trits| == 4 * |packed|
    && forall j, g :: 0 <= j < |packed| && 0 <= g < 4 ==>
         FlatElement(j, g) < |trits| && trits[FlatElement(j, g)] == TritOf(packed[j], g)
  }

  method Unpack(packed: seq<Byte>) returns (trits: array<int>)
    requires |packed| % 32 == 0
    ensures fresh(trits) && IsUnpacked(packed, trits[..])
  {
    hide FlatElement, Field;
    var n := |packed|;
    trits := new int[4 * n](_ => 0);
    forall j, g | 0 <= j < n && 0 <= g < 4
      ensures FlatElement(j, g) < 4 * n
    {
      FlatWithin(j, g, n);
    }
    for g := 0 to 4
      invariant forall j, h :: 0 <= j < n && 0 <= h < g ==> trits[FlatElement(j, h)] == TritOf(packed[j], h)
    {
      forall j: nat, h: nat, k: nat | h < 4 && FlatElement(j, g) == FlatElement(k, h)
        ensures j == k && g == h
      {
        FlatInjective(j, g, k, h);
      }
      forall j | 0 <= j < n {
        trits[FlatElement(j, g)] := TritOf(packed[j], g);
      }
    }
  }

  /** Unpacking what was packed gives every code back, less one. */
  lemma RoundTrip(codes: seq<Byte>, packed: seq<Byte>, trits: seq<int>)
    requires IsPacked(codes, packed) && IsUnpacked(packed, trits)
    ensures |trits| == |codes| && forall e :: 0 <= e < |codes| ==> trits[e] == codes[e] as int - 1
  {
    hide FlatElement, Field;
    forall e | 0 <= e < |codes|
      ensures trits[e] == codes[e] as int - 1
    {
      FlatReaches(e, |packed|);
    }
  }

  // ---- the bytes as numbers --------------------------------------------------------------------

  lemma FirstDigit(b: Byte)
    ensures ((b >> 6) & 3) as int == b as int / 64
  {
  }

  lemma SecondDigit(b: Byte)
    ensures ((b >> 4) & 3) as int == b as int / 16 % 4
  {
  }

  lemma Quarter(b: Byte)
    ensures (b >> 2) as int == b as int / 4
  {
  }

  lemma ThirdDigit(b: Byte)
    ensures ((b >> 2) & 3) as int == b as int / 4 % 4
  {
    Quarter(b);
    LastDigit(b >> 2);
    assert (b >> 2) >> 0 == b >> 2;
  }

  lemma LastDigit(b: Byte)
    ensures ((b >> 0) & 3) as int == b as int % 4
  {
  }

  lemma ShiftsAre()
    ensures Shift(0) == 6 && Shift(1) == 4 && Shift(2) == 2 && Shift(3) == 0
  {
  }

  lemma FieldsAre(b: Byte)
    ensures Field(b, 0) as int == b as int / 64 && Field(b, 1) as int == b as int / 16 % 4
    ensures Field(b, 2) as int == b as int / 4 % 4 && Field(b, 3) as int == b as int % 4
  {
    hide Shift;
    ShiftsAre();
    FirstDigit(b);
    SecondDigit(b);
    ThirdDigit(b);
    LastDigit(b);
  }

  lemma FourDigits(n: nat, a: nat, b: nat, c: nat, d: nat)
    requires n < 256 && a == n / 64 && b == n / 16 % 4 && c == n / 4 % 4 && d == n % 4
    ensures n == 64 * a + 16 * b + 4 * c + d
  {
  }

  /** A packed byte is a number of four digits to the base 4: the codes of four elements 32
      columns apart, the first one leading. */
  lemma PackedByteIs(cols: nat, codes: seq<Byte>, packed: seq<Byte>, row: nat, block: nat, half: nat, lane: nat)
    requires cols % 256 == 0 && half < 2 && lane < 32 && IsPacked(codes, packed)
    requires row * (cols / 4) + 64 * block + 32 * half + lane < |packed|
    ensures var e := row * cols + 256 * block + 128 * half + lane;
      && e + 96 < |codes|
      && packed[row * (cols / 4) + 64 * block + 32 * half + lane] as int
         == 64 * codes[e] as int + 16 * codes[e + 32] as int + 4 * codes[e + 64] as int + codes[e + 96] as int
  {
    hide Field, FlatElement;
    var j := row * (cols / 4) + 64 * block + 32 * half + lane;
    ElementsOf(cols, row, block, half, lane);
    DigitIs(codes, packed, j, 0);
    DigitIs(codes, packed, j, 1);
    DigitIs(codes, packed, j, 2);
    DigitIs(codes, packed, j, 3);
    FieldsAre(packed[j]);
    var e := row * cols + 256 * block + 128 * half + lane;
    FourDigits(packed[j] as int, codes[e] as int, codes[e + 32] as int, codes[e + 64] as int, codes[e + 96] as int);
  }

  lemma DigitIs(codes: seq<Byte>, packed: seq<Byte>, j: nat, g: nat)
    requires IsPacked(codes, packed) && j < |packed| && g < 4
    ensures FlatElement(j, g) < |codes| && codes[FlatElement(j, g)] as int == Field(packed[j], g) as int
  {
    hide Field, FlatElement;
  }

  /** The elements that share a byte. */
  lemma ElementsOf(cols: nat, row: nat, block: nat, half: nat, lane: nat)
    requires cols % 256 == 0 && half < 2 && lane < 32
    ensures var j, e := row * (cols / 4) + 64 * block + 32 * half + lane, row * cols + 256 * block + 128 * half + lane;
      && FlatElement(j, 0) == e && FlatElement(j, 1) == e + 32
      && FlatElement(j, 2) == e + 64 && FlatElement(j, 3) == e + 96
  {
    hide FlatElement;
    FlatIs(cols, Place(row, block, half, 0, lane));
    FlatIs(cols, Place(row, block, half, 1, lane));
    FlatIs(cols, Place(row, block, half, 2, lane));
    FlatIs(cols, Place(row, block, half, 3, lane));
  }

  /** The decoder reads these digits back, each less one, whatever the byte. */
  lemma TritsAre(cols: nat, packed: seq<Byte>, trits: seq<int>, row: nat, block: nat, half: nat, lane: nat)
    requires cols % 256 == 0 && half < 2 && lane < 32 && IsUnpacked(packed, trits)
    requires row * (cols / 4) + 64 * block + 32 * half + lane < |packed|
    ensures var e := row * cols + 256 * block + 128 * half + lane;
      var byte := packed[row * (cols / 4) + 64 * block + 32 * half + lane] as int;
      && e + 96 < |trits|
      && trits[e] == byte / 64 - 1 && trits[e + 32] == byte / 16 % 4 - 1
      && trits[e + 64] == byte / 4 % 4 - 1 && trits[e + 96] == byte % 4 - 1
  {
    hide Field, Element, ByteAt, FlatElement;
    var j := row * (cols / 4) + 64 * block + 32 * half + lane;
    FieldsAre(packed[j]);
    ElementsOf(cols, row, block, half, lane);
    assert trits[FlatElement(j, 0)] == TritOf(packed[j], 0) && trits[FlatElement(j, 1)] == TritOf(packed[j], 1);
    assert trits[FlatElement(j, 2)] == TritOf(packed[j], 2) && trits[FlatElement(j, 3)] == TritOf(packed[j], 3);
  }

  // ---- ternary weights -----------------------------------------------------------------------

  datatype Error = NotWholeBlocks | AllZero

  function Abs(x: real): real { if x < 0.0 then -x else x }

  function AbsSum(w: seq<real>): (s: real)
    ensures s >= 0.0
    decreases |w|
  {
    if w == [] then 0.0 else AbsSum(w[..|w| - 1]) + Abs(w[|w| - 1])
  }

  /** The mean magnitude; none for an empty tensor, whose mean is not a number. */
  function Scale(w: seq<real>): Option<real> { if w == [] then None else Some(AbsSum(w) / (|w| as real)) }

  lemma {:induction false} AbsSumAppend(a: seq<real>, b: seq<real>)
    ensures AbsSum(a + b) == AbsSum(a) + AbsSum(b)
    decreases |b|
  {
    if b == [] {
      assert a + b == a;
    } else {
      assert (a + b)[..|a + b| - 1] == a + b[..|b| - 1];
      AbsSumAppend(a, b[..|b| - 1]);
    }
  }

  /** The scale times the size is the sum of the magnitudes, which adds up over parts; the
      magnitude of a value is the larger of the value and its negative. */
  lemma ScaleIs(a: seq<real>, b: seq<real>, x: real)
    ensures a != [] ==> Scale(a).Some? && Scale(a).value * (|a| as real) == AbsSum(a)
    ensures AbsSum(a + b) == AbsSum(a) + AbsSum(b)
    ensures AbsSum([x]) >= x && AbsSum([x]) >= -x && (AbsSum([x]) == x || AbsSum([x]) == -x)
  {
    AbsSumAppend(a, b);
    AbsSumOne(x);
    hide AbsSum;
  }

  lemma AbsSumOne(x: real)
    ensures AbsSum([x]) == Abs(x)
  {
    assert [x][..0] == [];
  }

  /** The nearest integer, ties to the even one. */
  function Rint(x: real): int {
    var f := x.Floor;
    var d := x - f as real;
    if d < 0.5 then f else if d > 0.5 then f + 1 else if f % 2 == 0 then f else f + 1
  }

  function Clip(i: int): int { if i < -1 then -1 else if i > 1 then 1 else i }

  function Trit(x: real): int { Clip(Rint(x)) }

  predicate AsNear(x: real, t: int, u: int) { Abs(x - t as real) <= Abs(x - u as real) }

  /** Rounding and clipping takes a value to -1, 0 or 1 at the thresholds of one half, and
      no trit is nearer. */
  lemma TritIs(x: real)
    ensures Trit(x) == if x > 0.5 then 1 else if x < -0.5 then -1 else 0
    ensures forall u :: -1 <= u <= 1 ==> AsNear(x, Trit(x), u)
  {
    if -0.5 <= x <= 0.5 {
      assert x.Floor == 0 || x.Floor == -1;
    }
  }

  function Code(w: real, scale: real): (c: Byte)
    requires scale > 0.0
    ensures c < 3
  {
    (Trit(w / scale) + 1) as Byte
  }

  lemma CodeIs(w: real, scale: real)
    requires scale > 0.0
    ensures Code(w, scale) as int - 1 == Trit(w / scale)
  {
  }

  method Quantize(rows: nat, cols: nat, w: seq<real>) returns (r: Result<(seq<Byte>, real), Error>)
    requires |w| == rows * cols
    ensures r.Err? <==> cols % BLOCK_ELEMS != 0 || w == [] || AbsSum(w) == 0.0
    ensures r.Err? ==> r.error == if cols % BLOCK_ELEMS != 0 then NotWholeBlocks else AllZero
    ensures r.Ok? ==> w != [] && r.value.1 > 0.0 && Scale(w) == Some(r.value.1)
    ensures r.Ok? ==> IsPacked(seq(|w|, i requires 0 <= i < |w| => Code(w[i], r.value.1)), r.value.0)
    ensures r.Ok? ==> |r.value.0| == rows * (cols / 4)
  {
    hide IsPacked, Code, AbsSum;
    if cols % BLOCK_ELEMS != 0 {
      return Err(NotWholeBlocks);
    }
    var scale := Scale(w);
    if scale.None? || !(scale.value > 0.0) {
      return Err(AllZero);
    }
    var s := scale.value;
    var codes := seq(|w|, i requires 0 <= i < |w| => Code(w[i], s));
    WholeBlocks(rows, cols);
    var packed := Pack(codes);
    PackedSize(codes, packed[..], rows, cols);
    r := Ok((packed[..], s));
  }

  lemma WholeBlocks(rows: nat, cols: nat)
    requires cols % BLOCK_ELEMS == 0
    ensures rows * cols % 128 == 0 && rows * (cols / 4) * 4 == rows * cols
  {
    RowSplit(rows, cols);
    SameRest(rows * (cols / BLOCK_ELEMS) * 2, 0, 128);
  }

  lemma PackedSize(codes: seq<Byte>, packed: seq<Byte>, rows: nat, cols: nat)
    requires IsPacked(codes, packed) && |codes| == rows * cols && cols % BLOCK_ELEMS == 0
    ensures |packed| == rows * (cols / 4)
  {
    WholeBlocks(rows, cols);
  }

  ghost predicate Scaled(trits: seq<int>, scale: real, w: seq<real>) {
    |w| == |trits| && forall e :: 0 <= e < |w| ==> w[e] == trits[e] as real * scale
  }

  /** The trits of the packed bytes, each times the scale. */
  ghost predicate IsDecoded(packed: seq<Byte>, scale: real, w: seq<real>) {
    exists trits :: IsUnpacked(packed, trits) && Scaled(trits, scale, w)
  }

  method Dequantize(packed: seq<Byte>, scale: real) returns (w: seq<real>)
    requires |packed| % 32 == 0
    ensures IsDecoded(packed, scale, w)
  {
    hide IsUnpacked;
    var trits := Unpack(packed);
    ghost var ts := trits[..];
    w := seq(trits.Length, e requires 0 <= e < trits.Length reads trits => trits[e] as real * scale);
    assert Scaled(ts, scale, w);
  }

  /** Decoding an encoded tensor gives each weight's nearest trit times the scale. */
  lemma Decoded(w: seq<real>, packed: seq<Byte>, scale: real, v: seq<real>)
    requires scale > 0.0 && IsDecoded(packed, scale, v)
    requires IsPacked(seq(|w|, i requires 0 <= i < |w| => Code(w[i], scale)), packed)
    ensures |v| == |w| && forall e :: 0 <= e < |w| ==> v[e] == Trit(w[e] / scale) as real * scale
  {
    hide IsPacked, IsUnpacked, Code, Trit;
    var codes := seq(|w|, i requires 0 <= i < |w| => Code(w[i], scale));
    var trits :| IsUnpacked(packed, trits) && Scaled(trits, scale, v);
    RoundTrip(codes, packed, trits);
    forall e | 0 <= e < |w|
      ensures v[e] == Trit(w[e] / scale) as real * scale
    {
      CodeIs(w[e], scale);
    }
  }

  predicate Ternary(w: seq<real>, a: real) { forall x <- w :: x == 0.0 || x == a || x == -a }

  lemma FrontTernary(w: seq<real>, a: real)
    requires w != [] && Ternary(w, a)
    ensures Ternary(w[..|w| - 1], a)
  {
    var front := w[..|w| - 1];
    forall x | x in front
      ensures x == 0.0 || x == a || x == -a
    {
      var i :| 0 <= i < |front| && front[i] == x;
      assert w[i] in w;
    }
  }

  lemma {:induction false} MeanAtMost(w: seq<real>, a: real)
    requires a > 0.0 && Ternary(w, a)
    ensures AbsSum(w) <= a * (|w| as real)
    decreases |w|
  {
    if w == [] {
    } else {
      assert w[|w| - 1] in w;
      FrontTernary(w, a);
      MeanAtMost(w[..|w| - 1], a);
      assert a * (|w| as real) == a * ((|w| - 1) as real) + a;
    }
  }

  /** A tensor that is already ternary keeps all its signs. */
  lemma SignsKept(w: seq<real>, a: real, e: nat)
    requires a > 0.0 && Ternary(w, a) && AbsSum(w) > 0.0 && e < |w|
    ensures Scale(w).Some? && Scale(w).value > 0.0
    ensures Trit(w[e] / Scale(w).value) == if w[e] > 0.0 then 1 else if w[e] < 0.0 then -1 else 0
  {
    hide AbsSum, Trit;
    var s := Scale(w).value;
    MeanAtMost(w, a);
    RatioIs(AbsSum(w), |w| as real, a);
    assert s <= a;
    assert w[e] in w;
    RatioIs(w[e], s, 0.5);
    RatioIs(w[e], s, -0.5);
    TritIs(w[e] / s);
  }
}
