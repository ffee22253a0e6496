/**
 * The total order on cells of typed Arrow arrays, `ArrayOrd` and
 * `Ord for ArrayIdx` (src/persist-types/src/arrow.rs:214-419). Every place
 * the source panics (mismatched array kinds, an index past a buffer)
 * yields `None`, and so does a negative list offset, which lies outside
 * the domain because an `OffsetBuffer` never holds one.
 */
module ArrowOrd {
  import opened Wrappers
  import opened ArrowProto

  datatype Ordering = Less | Equal | Greater

  function Flip(o: Ordering): Ordering
  {
    match o
    case Less => Greater
    case Equal => Equal
    case Greater => Less
  }

  /** The array kinds whose cells are compared value to value. */
  datatype PrimitiveKind =
    | BoolKind | Int8Kind | Int16Kind | Int32Kind | Int64Kind
    | UInt8Kind | UInt16Kind | UInt32Kind | UInt64Kind
    | Float32Kind | Float64Kind | StringKind | BinaryKind | FixedSizeBinaryKind

  /**
   * One primitive value. A float is represented by its position in IEEE
   * `totalOrder`, the order `total_cmp` implements.
   */
  datatype Scalar =
    | BoolValue(b: bool)
    | IntValue(i: int)
    | BytesValue(bytes: seq<int>)
    | FloatValue(totalKey: int)

  /** A validity bitmap: `true` marks a null cell. */
  type NullBuffer = seq<bool>

  /** `ArrayOrd`: the downcast array. */
  datatype ArrayOrd =
    | NullArray(len: nat)
    | Primitive(kind: PrimitiveKind, nulls: Option<NullBuffer>, values: seq<Scalar>)
    | ListArray(listNulls: Option<NullBuffer>, offsets: seq<int>, items: ArrayOrd)
    | StructArray(structNulls: Option<NullBuffer>, columns: seq<ArrayOrd>)

  function CmpInt(x: int, y: int): Ordering
  {
    if x < y then Less else if x == y then Equal else Greater
  }

  /** Lexicographic order on byte strings (`Ord` on `str` and `[u8]`). */
  function CmpBytes(x: seq<int>, y: seq<int>): (o: Ordering)
    ensures o == Equal <==> x == y
  {
    if x == [] && y == [] then Equal
    else if x == [] then Less
    else if y == [] then Greater
    else if x[0] != y[0] then CmpInt(x[0], y[0])
    else
      var rest := CmpBytes(x[1..], y[1..]);
      assert rest == Equal ==> x == [x[0]] + x[1..] == [y[0]] + y[1..] == y;
      rest
  }

  /** `Ord::cmp` on the values of one kind; `false < true`. */
  function CmpScalar(x: Scalar, y: Scalar): Ordering
  {
    match (x, y)
    case (BoolValue(a), BoolValue(b)) => if a == b then Equal else if !a then Less else Greater
    case (IntValue(a), IntValue(b)) => CmpInt(a, b)
    case (BytesValue(a), BytesValue(b)) => CmpBytes(a, b)
    case (FloatValue(a), FloatValue(b)) => CmpInt(a, b)
    case _ => CmpInt(Rank(x), Rank(y))
  }

  /** Orders values of different kinds, which one well-formed array never mixes. */
  function Rank(x: Scalar): int
  {
    match x
    case BoolValue(_) => 0
    case IntValue(_) => 1
    case BytesValue(_) => 2
    case FloatValue(_) => 3
  }

  /** `is_null`: no bitmap means no nulls; an index past the bitmap panics. */
  function IsNull(nulls: Option<NullBuffer>, idx: nat): (r: Option<bool>)
    ensures nulls.None? ==> r == Some(false)
    ensures r.None? <==> nulls.Some? && idx >= |nulls.value|
    ensures r == Some(true) <==> nulls.Some? && idx < |nulls.value| && nulls.value[idx]
  {
    match nulls
    case None => Some(false)
    case Some(bits) => if idx < |bits| then Some(bits[idx]) else None
  }

  /** Nulls sort last; two nulls are equal; two values go to `inner`. */
  function NullsLast(leftNull: bool, rightNull: bool, inner: Option<Ordering>): Option<Ordering>
  {
    match (leftNull, rightNull)
    case (false, true) => Some(Less)
    case (true, true) => Some(Equal)
    case (true, false) => Some(Greater)
    case (false, false) => inner
  }

  /**
   * `offsets[idx].as_usize()`: an index past the buffer panics. A negative
   * offset is outside the domain (an `OffsetBuffer` rejects one when it is
   * built) and is `None` here as well.
   */
  function Offset(offsets: seq<int>, idx: nat): (r: Option<nat>)
    ensures r.Some? <==> idx < |offsets| && offsets[idx] >= 0
    ensures r.Some? ==> r.value == offsets[idx]
  {
    if idx < |offsets| && offsets[idx] >= 0 then Some(offsets[idx]) else None
  }

  /** `ArrayIdx::cmp` of cell `i` of `a` with cell `j` of `b`; `None` where the source panics. */
  function Cmp(a: ArrayOrd, i: nat, b: ArrayOrd, j: nat): (r: Option<Ordering>)
    ensures !SameKind(a, b) ==> r.None?
    ensures a.NullArray? && b.NullArray? ==> r == Some(Equal)
    decreases a, 2, 0
  {
    match (a, b)
    case (NullArray(_), NullArray(_)) => Some(Equal)
    case (Primitive(k1, n1, v1), Primitive(k2, n2, v2)) =>
      if k1 != k2 then None
      else if IsNull(n1, i).None? || IsNull(n2, j).None? then None
      else
        var value := if i < |v1| && j < |v2| then Some(CmpScalar(v1[i], v2[j])) else None;
        NullsLast(IsNull(n1, i).value, IsNull(n2, j).value, value)
    case (ListArray(n1, o1, items1), ListArray(n2, o2, items2)) =>
      if IsNull(n1, i).None? || IsNull(n2, j).None? then None
      else if IsNull(n1, i).value || IsNull(n2, j).value then
        NullsLast(IsNull(n1, i).value, IsNull(n2, j).value, None)
      else if Offset(o1, i).None? || Offset(o1, i + 1).None? || Offset(o2, j).None? || Offset(o2, j + 1).None? then None
      else
        CmpRanges(a, Offset(o1, i).value, Offset(o1, i + 1).value, b, Offset(o2, j).value, Offset(o2, j + 1).value)
    case (StructArray(n1, c1), StructArray(n2, c2)) =>
      if IsNull(n1, i).None? || IsNull(n2, j).None? then None
      else if IsNull(n1, i).value || IsNull(n2, j).value then
        NullsLast(IsNull(n1, i).value, IsNull(n2, j).value, None)
      else CmpColumns(a, i, b, j, 0)
    case _ => None
  }

  /** How many cells the range `from..to` holds. */
  function RangeLength(from: nat, to: nat): nat
  {
    if from < to then to - from else 0
  }

  /**
   * `Iterator::cmp` over the item cells `from1..to1` of list array `a` and
   * `from2..to2` of `b`: the first unequal pair decides; a range that runs
   * out first is smaller. An empty range is one whose start is not below its end.
   */
  function CmpRanges(a: ArrayOrd, from1: nat, to1: nat, b: ArrayOrd, from2: nat, to2: nat): (r: Option<Ordering>)
    requires a.ListArray? && b.ListArray?
    ensures r == Some(Equal) ==> RangeLength(from1, to1) == RangeLength(from2, to2)
    decreases a, 1, to1 - from1
  {
    if from1 >= to1 && from2 >= to2 then Some(Equal)
    else if from1 >= to1 then Some(Less)
    else if from2 >= to2 then Some(Greater)
    else
      match Cmp(a.items, from1, b.items, from2)
      case None => None
      case Some(Equal) => CmpRanges(a, from1 + 1, to1, b, from2 + 1, to2)
      case Some(o) => Some(o)
  }

  /** `Iterator::cmp` over the columns of two struct arrays from column `k`, at rows `i` and `j`. */
  function CmpColumns(a: ArrayOrd, i: nat, b: ArrayOrd, j: nat, k: nat): (r: Option<Ordering>)
    requires a.StructArray? && b.StructArray?
    ensures r == Some(Equal) && k <= |a.columns| && k <= |b.columns| ==> |a.columns| == |b.columns|
    decreases a, 1, |a.columns| - k
  {
    if k >= |a.columns| && k >= |b.columns| then Some(Equal)
    else if k >= |a.columns| then Some(Less)
    else if k >= |b.columns| then Some(Greater)
    else
      match Cmp(a.columns[k], i, b.columns[k], j)
      case None => None
      case Some(Equal) => CmpColumns(a, i, b, j, k + 1)
      case Some(o) => Some(o)
  }

  /** `eq` is `cmp == Equal`. */
  function Eq(a: ArrayOrd, i: nat, b: ArrayOrd, j: nat): (r: Option<bool>)
    ensures r.Some? <==> Cmp(a, i, b, j).Some?
    ensures r == Some(true) <==> Cmp(a, i, b, j) == Some(Equal)
  {
    match Cmp(a, i, b, j)
    case None => None
    case Some(o) => Some(o == Equal)
  }

  /** `partial_cmp` is `Some(cmp)`: it never reports incomparable cells. */
  function PartialCmp(a: ArrayOrd, i: nat, b: ArrayOrd, j: nat): (r: Option<Option<Ordering>>)
    ensures r.Some? <==> Cmp(a, i, b, j).Some?
    ensures r.Some? ==> r.value == Cmp(a, i, b, j)
  {
    match Cmp(a, i, b, j)
    case None => None
    case Some(o) => Some(Some(o))
  }

  // ---------------------------------------------------------------------
  // Order properties
  // ---------------------------------------------------------------------

  lemma CmpScalarFlip(x: Scalar, y: Scalar)
    ensures CmpScalar(y, x) == Flip(CmpScalar(x, y))
  {
    match (x, y)
    case (BytesValue(a), BytesValue(b)) => CmpBytesFlip(a, b);
    case _ =>
  }

  lemma {:induction false} CmpBytesFlip(x: seq<int>, y: seq<int>)
    ensures CmpBytes(y, x) == Flip(CmpBytes(x, y))
  {
    if x != [] && y != [] && x[0] == y[0] {
      CmpBytesFlip(x[1..], y[1..]);
    }
  }

  /**
   * Swapping the two cells flips the answer, and one panics exactly when
   * the other does: the order is antisymmetric.
   */
  lemma {:induction false} CmpFlip(a: ArrayOrd, i: nat, b: ArrayOrd, j: nat)
    ensures Cmp(b, j, a, i) == MapFlip(Cmp(a, i, b, j))
    decreases a, 2, 0
  {
    match (a, b)
    case (Primitive(k1, n1, v1), Primitive(k2, n2, v2)) =>
      if i < |v1| && j < |v2| {
        CmpScalarFlip(v1[i], v2[j]);
      }
    case (ListArray(n1, o1, items1), ListArray(n2, o2, items2)) =>
      if Offset(o1, i).Some? && Offset(o1, i + 1).Some? && Offset(o2, j).Some? && Offset(o2, j + 1).Some? {
        CmpRangesFlip(a, Offset(o1, i).value, Offset(o1, i + 1).value, b, Offset(o2, j).value, Offset(o2, j + 1).value);
      }
    case (StructArray(n1, c1), StructArray(n2, c2)) =>
      CmpColumnsFlip(a, i, b, j, 0);
    case _ =>
  }

  function MapFlip(o: Option<Ordering>): Option<Ordering>
  {
    match o
    case None => None
    case Some(x) => Some(Flip(x))
  }

  lemma {:induction false} CmpRangesFlip(a: ArrayOrd, from1: nat, to1: nat, b: ArrayOrd, from2: nat, to2: nat)
    requires a.ListArray? && b.ListArray?
    ensures CmpRanges(b, from2, to2, a, from1, to1) == MapFlip(CmpRanges(a, from1, to1, b, from2, to2))
    decreases a, 1, to1 - from1
  {
    if from1 < to1 && from2 < to2 {
      CmpFlip(a.items, from1, b.items, from2);
      if Cmp(a.items, from1, b.items, from2) == Some(Equal) {
        CmpRangesFlip(a, from1 + 1, to1, b, from2 + 1, to2);
      }
    }
  }

  lemma {:induction false} CmpColumnsFlip(a: ArrayOrd, i: nat, b: ArrayOrd, j: nat, k: nat)
    requires a.StructArray? && b.StructArray?
    ensures CmpColumns(b, j, a, i, k) == MapFlip(CmpColumns(a, i, b, j, k))
    decreases a, 1, |a.columns| - k
  {
    if k < |a.columns| && k < |b.columns| {
      CmpFlip(a.columns[k], i, b.columns[k], j);
      if Cmp(a.columns[k], i, b.columns[k], j) == Some(Equal) {
        CmpColumnsFlip(a, i, b, j, k + 1);
      }
    }
  }

  /** Cell equality is symmetric. */
  lemma EqSymmetric(a: ArrayOrd, i: nat, b: ArrayOrd, j: nat)
    ensures Eq(a, i, b, j) == Eq(b, j, a, i)
  {
    CmpFlip(a, i, b, j);
  }

  /** An array whose buffers cover its rows, its list offsets and its columns. */
  predicate WellFormed(a: ArrayOrd, rows: nat)
  {
    match a
    case NullArray(len) => rows <= len
    case Primitive(_, nulls, values) =>
      rows <= |values| && (nulls.Some? ==> rows <= |nulls.value|)
    case ListArray(nulls, offsets, items) =>
      && (nulls.Some? ==> rows <= |nulls.value|)
      && rows < |offsets|
      && (forall r :: 0 <= r <= rows ==> 0 <= offsets[r])
      && WellFormed(items, MaxOffset(offsets, rows))
    case StructArray(nulls, columns) =>
      && (nulls.Some? ==> rows <= |nulls.value|)
      && forall c :: 0 <= c < |columns| ==> WellFormed(columns[c], rows)
  }

  /** The largest of `offsets[0..=rows]`: how many item cells the rows reach. */
  function MaxOffset(offsets: seq<int>, rows: nat): nat
    requires rows < |offsets|
  {
    var here := if offsets[rows] >= 0 then offsets[rows] else 0;
    if rows == 0 then here
    else
      var before := MaxOffset(offsets, rows - 1);
      if here > before then here else before
  }

  lemma {:induction false} MaxOffsetBounds(offsets: seq<int>, rows: nat, r: nat)
    requires rows < |offsets| && r <= rows
    ensures offsets[r] <= MaxOffset(offsets, rows)
  {
    if r < rows {
      MaxOffsetBounds(offsets, rows - 1, r);
    }
  }

  lemma {:induction false} WellFormedFewerRows(a: ArrayOrd, rows: nat, fewer: nat)
    requires WellFormed(a, rows) && fewer <= rows
    ensures WellFormed(a, fewer)
    decreases a
  {
    match a
    case NullArray(_) =>
    case Primitive(_, _, _) =>
    case ListArray(nulls, offsets, items) =>
      MaxOffsetMono(offsets, fewer, rows);
      WellFormedFewerRows(items, MaxOffset(offsets, rows), MaxOffset(offsets, fewer));
    case StructArray(nulls, columns) =>
      forall c | 0 <= c < |columns|
        ensures WellFormed(columns[c], fewer)
      {
        WellFormedFewerRows(columns[c], rows, fewer);
      }
  }

  lemma {:induction false} MaxOffsetMono(offsets: seq<int>, fewer: nat, rows: nat)
    requires fewer <= rows < |offsets|
    ensures MaxOffset(offsets, fewer) <= MaxOffset(offsets, rows)
    decreases rows
  {
    if fewer < rows {
      MaxOffsetMono(offsets, fewer, rows - 1);
    }
  }

  /** Every in-range cell of a well-formed array equals itself: the order is reflexive and never panics there. */
  lemma {:induction false} CmpReflexive(a: ArrayOrd, rows: nat, i: nat)
    requires WellFormed(a, rows) && i < rows
    ensures Cmp(a, i, a, i) == Some(Equal)
    decreases a, 2, 0
  {
    match a
    case NullArray(_) =>
    case Primitive(_, _, values) =>
      CmpScalarReflexive(values[i]);
    case ListArray(nulls, offsets, items) =>
      if !IsNull(nulls, i).value {
        MaxOffsetBounds(offsets, rows, i + 1);
        CmpRangesReflexive(a, offsets[i], offsets[i + 1], MaxOffset(offsets, rows));
      }
    case StructArray(nulls, columns) =>
      if !IsNull(nulls, i).value {
        CmpColumnsReflexive(a, rows, i, 0);
      }
  }

  lemma {:induction false} CmpRangesReflexive(a: ArrayOrd, from: nat, to: nat, reach: nat)
    requires a.ListArray? && WellFormed(a.items, reach) && to <= reach
    ensures CmpRanges(a, from, to, a, from, to) == Some(Equal)
    decreases a, 1, to - from
  {
    if from < to {
      CmpReflexive(a.items, reach, from);
      CmpRangesReflexive(a, from + 1, to, reach);
    }
  }

  lemma {:induction false} CmpColumnsReflexive(a: ArrayOrd, rows: nat, i: nat, k: nat)
    requires a.StructArray? && WellFormed(a, rows) && i < rows
    ensures CmpColumns(a, i, a, i, k) == Some(Equal)
    decreases a, 1, |a.columns| - k
  {
    if k < |a.columns| {
      CmpReflexive(a.columns[k], rows, i);
      CmpColumnsReflexive(a, rows, i, k + 1);
    }
  }

  lemma CmpScalarReflexive(x: Scalar)
    ensures CmpScalar(x, x) == Equal
  {
  }

  /** Two cells of null arrays are always equal, whatever their indices. */
  lemma NullArraysEqual(m: nat, n: nat, i: nat, j: nat)
    ensures Cmp(NullArray(m), i, NullArray(n), j) == Some(Equal)
  {
  }

  /** A null cell sorts after every non-null cell of the same kind of array, and equals itself. */
  lemma NullsSortLast(a: ArrayOrd, i: nat, b: ArrayOrd, j: nat)
    requires !a.NullArray? && SameKind(a, b)
    requires IsNull(NullsOf(a), i) == Some(false) && IsNull(NullsOf(b), j) == Some(true)
    ensures Cmp(a, i, b, j) == Some(Less)
    ensures Cmp(b, j, a, i) == Some(Greater)
    ensures Cmp(b, j, b, j) == Some(Equal)
  {
  }

  /** Two null cells of the same kind of array are equal, whatever their indices (arrow.rs:328, 381, 392). */
  lemma NullsEqual(a: ArrayOrd, i: nat, b: ArrayOrd, j: nat)
    requires !a.NullArray? && SameKind(a, b)
    requires IsNull(NullsOf(a), i) == Some(true) && IsNull(NullsOf(b), j) == Some(true)
    ensures Cmp(a, i, b, j) == Some(Equal)
  {
  }

  predicate SameKind(a: ArrayOrd, b: ArrayOrd)
  {
    match (a, b)
    case (NullArray(_), NullArray(_)) => true
    case (Primitive(k1, _, _), Primitive(k2, _, _)) => k1 == k2
    case (ListArray(_, _, _), ListArray(_, _, _)) => true
    case (StructArray(_, _), StructArray(_, _)) => true
    case _ => false
  }

  function NullsOf(a: ArrayOrd): Option<NullBuffer>
  {
    match a
    case NullArray(_) => None
    case Primitive(_, nulls, _) => nulls
    case ListArray(nulls, _, _) => nulls
    case StructArray(nulls, _) => nulls
  }

  /** Arrays of different kinds cannot be compared: the source panics. */
  lemma MismatchedKindsPanic(a: ArrayOrd, i: nat, b: ArrayOrd, j: nat)
    requires !SameKind(a, b)
    ensures Cmp(a, i, b, j).None?
  {
  }

  // ---------------------------------------------------------------------
  // Transitivity and totality
  // ---------------------------------------------------------------------

  /** The outcome of two steps that never go down: Equal only when both steps are. */
  function Chain(x: Ordering, y: Ordering): Ordering
  {
    if x == Equal && y == Equal then Equal else Less
  }

  lemma CmpScalarTransitive(x: Scalar, y: Scalar, z: Scalar)
    requires CmpScalar(x, y) != Greater && CmpScalar(y, z) != Greater
    ensures CmpScalar(x, z) == Chain(CmpScalar(x, y), CmpScalar(y, z))
  {
    if x.BytesValue? && y.BytesValue? && z.BytesValue? {
      CmpBytesTransitive(x.bytes, y.bytes, z.bytes);
    }
  }

  lemma {:induction false} CmpBytesTransitive(x: seq<int>, y: seq<int>, z: seq<int>)
    requires CmpBytes(x, y) != Greater && CmpBytes(y, z) != Greater
    ensures CmpBytes(x, z) == Chain(CmpBytes(x, y), CmpBytes(y, z))
  {
    if x != [] && y != [] && z != [] && x[0] == y[0] == z[0] {
      CmpBytesTransitive(x[1..], y[1..], z[1..]);
    }
  }

  /**
   * The order is transitive: when cell `a,i` is at most `b,j` and `b,j` is
   * at most `c,k`, and neither comparison panics, then `a,i` compares to
   * `c,k` without panicking, and is Less unless both steps were Equal.
   * With `CmpFlip` this covers the Greater direction too.
   */
  lemma {:induction false} CmpTransitive(a: ArrayOrd, i: nat, b: ArrayOrd, j: nat, c: ArrayOrd, k: nat)
    requires Cmp(a, i, b, j).Some? && Cmp(a, i, b, j) != Some(Greater)
    requires Cmp(b, j, c, k).Some? && Cmp(b, j, c, k) != Some(Greater)
    ensures Cmp(a, i, c, k) == Some(Chain(Cmp(a, i, b, j).value, Cmp(b, j, c, k).value))
    decreases a, 2, 0
  {
    match a
    case NullArray(_) =>
    case Primitive(_, n1, v1) =>
      if !IsNull(n1, i).value && !IsNull(b.nulls, j).value && !IsNull(c.nulls, k).value {
        CmpScalarTransitive(v1[i], b.values[j], c.values[k]);
      }
    case ListArray(n1, o1, _) =>
      var n2, o2, n3, o3 := b.listNulls, b.offsets, c.listNulls, c.offsets;
      if !IsNull(n1, i).value && !IsNull(n2, j).value && !IsNull(n3, k).value {
        CmpRangesTransitive(a, Offset(o1, i).value, Offset(o1, i + 1).value,
                            b, Offset(o2, j).value, Offset(o2, j + 1).value,
                            c, Offset(o3, k).value, Offset(o3, k + 1).value);
      }
    case StructArray(n1, _) =>
      if !IsNull(n1, i).value && !IsNull(b.structNulls, j).value && !IsNull(c.structNulls, k).value {
        CmpColumnsTransitive(a, i, b, j, c, k, 0);
      }
  }

  lemma {:induction false} CmpRangesTransitive(a: ArrayOrd, from1: nat, to1: nat, b: ArrayOrd, from2: nat, to2: nat,
                                               c: ArrayOrd, from3: nat, to3: nat)
    requires a.ListArray? && b.ListArray? && c.ListArray?
    requires CmpRanges(a, from1, to1, b, from2, to2).Some? && CmpRanges(a, from1, to1, b, from2, to2) != Some(Greater)
    requires CmpRanges(b, from2, to2, c, from3, to3).Some? && CmpRanges(b, from2, to2, c, from3, to3) != Some(Greater)
    ensures CmpRanges(a, from1, to1, c, from3, to3) ==
              Some(Chain(CmpRanges(a, from1, to1, b, from2, to2).value, CmpRanges(b, from2, to2, c, from3, to3).value))
    decreases a, 1, to1 - from1
  {
    if from1 < to1 && from2 < to2 && from3 < to3 {
      CmpTransitive(a.items, from1, b.items, from2, c.items, from3);
      if Cmp(a.items, from1, b.items, from2) == Some(Equal) && Cmp(b.items, from2, c.items, from3) == Some(Equal) {
        CmpRangesTransitive(a, from1 + 1, to1, b, from2 + 1, to2, c, from3 + 1, to3);
      }
    }
  }

  lemma {:induction false} CmpColumnsTransitive(a: ArrayOrd, i: nat, b: ArrayOrd, j: nat, c: ArrayOrd, k: nat, col: nat)
    requires a.StructArray? && b.StructArray? && c.StructArray?
    requires CmpColumns(a, i, b, j, col).Some? && CmpColumns(a, i, b, j, col) != Some(Greater)
    requires CmpColumns(b, j, c, k, col).Some? && CmpColumns(b, j, c, k, col) != Some(Greater)
    ensures CmpColumns(a, i, c, k, col) ==
              Some(Chain(CmpColumns(a, i, b, j, col).value, CmpColumns(b, j, c, k, col).value))
    decreases a, 1, |a.columns| - col
  {
    if col < |a.columns| && col < |b.columns| && col < |c.columns| {
      CmpTransitive(a.columns[col], i, b.columns[col], j, c.columns[col], k);
      if Cmp(a.columns[col], i, b.columns[col], j) == Some(Equal) && Cmp(b.columns[col], j, c.columns[col], k) == Some(Equal) {
        CmpColumnsTransitive(a, i, b, j, c, k, col + 1);
      }
    }
  }

  /** A downcast array has the shape of data type `t`, at every depth. */
  predicate Conforms(a: ArrayOrd, t: DataType)
    decreases a
  {
    match a
    case NullArray(_) => t == Null
    case Primitive(kind, _, _) => PrimitiveKindOf(t) == Some(kind)
    case ListArray(_, _, items) => t.List? && Conforms(items, t.item.dataType)
    case StructArray(_, columns) =>
      && t.Struct? && |columns| == |t.children|
      && forall c :: 0 <= c < |columns| ==> Conforms(columns[c], t.children[c].dataType)
  }

  /**
   * The order is total on the cells it is meant for: any in-range cell of a
   * well-formed array compares, without panicking, to any in-range cell of
   * another well-formed array of the same data type.
   */
  lemma {:induction false} CmpTotal(t: DataType, a: ArrayOrd, rowsA: nat, i: nat, b: ArrayOrd, rowsB: nat, j: nat)
    requires Conforms(a, t) && Conforms(b, t)
    requires WellFormed(a, rowsA) && i < rowsA && WellFormed(b, rowsB) && j < rowsB
    ensures Cmp(a, i, b, j).Some?
    decreases a, 2, 0
  {
    match a
    case NullArray(_) =>
    case Primitive(_, _, _) =>
    case ListArray(n1, o1, _) =>
      var o2 := b.offsets;
      if !IsNull(n1, i).value && !IsNull(b.listNulls, j).value {
        MaxOffsetBounds(o1, rowsA, i + 1);
        MaxOffsetBounds(o2, rowsB, j + 1);
        CmpRangesTotal(t.item.dataType, a, o1[i], o1[i + 1], MaxOffset(o1, rowsA), b, o2[j], o2[j + 1], MaxOffset(o2, rowsB));
      }
    case StructArray(n1, _) =>
      if !IsNull(n1, i).value && !IsNull(b.structNulls, j).value {
        CmpColumnsTotal(t, a, rowsA, i, b, rowsB, j, 0);
      }
  }

  lemma {:induction false} CmpRangesTotal(t: DataType, a: ArrayOrd, from1: nat, to1: nat, reach1: nat,
                                          b: ArrayOrd, from2: nat, to2: nat, reach2: nat)
    requires a.ListArray? && b.ListArray? && Conforms(a.items, t) && Conforms(b.items, t)
    requires WellFormed(a.items, reach1) && to1 <= reach1 && WellFormed(b.items, reach2) && to2 <= reach2
    ensures CmpRanges(a, from1, to1, b, from2, to2).Some?
    decreases a, 1, to1 - from1
  {
    if from1 < to1 && from2 < to2 {
      CmpTotal(t, a.items, reach1, from1, b.items, reach2, from2);
      CmpRangesTotal(t, a, from1 + 1, to1, reach1, b, from2 + 1, to2, reach2);
    }
  }

  lemma {:induction false} CmpColumnsTotal(t: DataType, a: ArrayOrd, rowsA: nat, i: nat, b: ArrayOrd, rowsB: nat, j: nat, col: nat)
    requires a.StructArray? && b.StructArray? && Conforms(a, t) && Conforms(b, t)
    requires WellFormed(a, rowsA) && i < rowsA && WellFormed(b, rowsB) && j < rowsB
    ensures CmpColumns(a, i, b, j, col).Some?
    decreases a, 1, |a.columns| - col
  {
    if col < |a.columns| {
      CmpTotal(t.children[col].dataType, a.columns[col], rowsA, i, b.columns[col], rowsB, j);
      CmpColumnsTotal(t, a, rowsA, i, b, rowsB, j, col + 1);
    }
  }

  // ---------------------------------------------------------------------
  // ArrayOrd::new
  // ---------------------------------------------------------------------

  /**
   * The array `ArrayOrd::new` downcasts: its data type, length, validity,
   * primitive values, list offsets and child arrays (list items or struct
   * columns).
   */
  datatype Array = Array(dataType: DataType, len: nat, validity: Option<NullBuffer>,
                         scalars: seq<Scalar>, arrayOffsets: seq<int>, children: seq<Array>)

  function PrimitiveKindOf(t: DataType): Option<PrimitiveKind>
  {
    match t
    case Boolean => Some(BoolKind)
    case Int8 => Some(Int8Kind)
    case Int16 => Some(Int16Kind)
    case Int32 => Some(Int32Kind)
    case Int64 => Some(Int64Kind)
    case UInt8 => Some(UInt8Kind)
    case UInt16 => Some(UInt16Kind)
    case UInt32 => Some(UInt32Kind)
    case UInt64 => Some(UInt64Kind)
    case Float32 => Some(Float32Kind)
    case Float64 => Some(Float64Kind)
    case Binary => Some(BinaryKind)
    case Utf8 => Some(StringKind)
    case FixedSizeBinary(_) => Some(FixedSizeBinaryKind)
    case _ => None
  }

  /**
   * `ArrayOrd::new`: downcast by data type, recursing into list items and
   * struct columns; a map or any other type is `unimplemented!` (`None`).
   */
  function New(arr: Array): (r: Option<ArrayOrd>)
    ensures r.Some? <==> Downcastable(arr)
    ensures r.Some? && PrimitiveKindOf(arr.dataType).Some? ==> r.value == Primitive(PrimitiveKindOf(arr.dataType).value, arr.validity, arr.scalars)
    ensures r.Some? && arr.dataType.Null? ==> r.value == NullArray(arr.len)
    ensures r.Some? && arr.dataType.List? ==> r.value.ListArray? && r.value.listNulls == arr.validity && r.value.offsets == arr.arrayOffsets
    ensures r.Some? && arr.dataType.Struct? ==> r.value.StructArray? && |r.value.columns| == |arr.children|
    decreases arr, 1
  {
    match arr.dataType
    case Null => Some(NullArray(arr.len))
    case List(_) =>
      if |arr.children| == 0 then None
      else
        (match New(arr.children[0])
         case None => None
         case Some(items) => Some(ListArray(arr.validity, arr.arrayOffsets, items)))
    case Struct(_) =>
      (match NewColumns(arr, 0)
       case None => None
       case Some(columns) => Some(StructArray(arr.validity, columns)))
    case _ =>
      match PrimitiveKindOf(arr.dataType)
      case None => None
      case Some(kind) => Some(Primitive(kind, arr.validity, arr.scalars))
  }

  function NewColumns(arr: Array, k: nat): (r: Option<seq<ArrayOrd>>)
    ensures r.Some? ==> |r.value| == |arr.children| - k || (k > |arr.children| && r.value == [])
    ensures r.Some? <==> forall c :: k <= c < |arr.children| ==> Downcastable(arr.children[c])
    decreases arr, 0, |arr.children| - k
  {
    if k >= |arr.children| then Some([])
    else
      match New(arr.children[k])
      case None => None
      case Some(column) =>
        match NewColumns(arr, k + 1)
        case None => None
        case Some(rest) => Some([column] + rest)
  }

  /** The arrays `ArrayOrd::new` supports: no maps or other types at any depth, and lists carry their items. */
  predicate Downcastable(arr: Array)
    decreases arr
  {
    match arr.dataType
    case Null => true
    case List(_) => |arr.children| > 0 && Downcastable(arr.children[0])
    case Struct(_) => forall c :: 0 <= c < |arr.children| ==> Downcastable(arr.children[c])
    case _ => PrimitiveKindOf(arr.dataType).Some?
  }

  /** Two arrays of one primitive or null data type downcast to arrays whose cells compare without a kind mismatch. */
  lemma NewSameKind(x: Array, y: Array)
    requires x.dataType == y.dataType && New(x).Some? && New(y).Some?
    ensures SameKind(New(x).value, New(y).value)
  {
  }

  /** Each child array carries the data type its parent's type declares for it. */
  predicate TypeConsistent(arr: Array)
    decreases arr
  {
    match arr.dataType
    case List(item) => |arr.children| > 0 && arr.children[0].dataType == item.dataType && TypeConsistent(arr.children[0])
    case Struct(fields) =>
      && |arr.children| == |fields|
      && forall c :: 0 <= c < |fields| ==> arr.children[c].dataType == fields[c].dataType && TypeConsistent(arr.children[c])
    case _ => true
  }

  lemma {:induction false} NewColumnsAt(arr: Array, k: nat, c: nat)
    requires NewColumns(arr, k).Some? && k <= c < |arr.children|
    ensures New(arr.children[c]).Some? && NewColumns(arr, k).value[c - k] == New(arr.children[c]).value
    decreases c - k
  {
    if k < c {
      NewColumnsAt(arr, k + 1, c);
    }
  }

  /** `ArrayOrd::new` of a consistently typed array has the shape of its data type. */
  lemma {:induction false} NewConforms(arr: Array)
    requires New(arr).Some? && TypeConsistent(arr)
    ensures Conforms(New(arr).value, arr.dataType)
    decreases arr
  {
    match arr.dataType
    case List(_) =>
      NewConforms(arr.children[0]);
    case Struct(fields) =>
      var columns := New(arr).value.columns;
      forall c | 0 <= c < |columns|
        ensures Conforms(columns[c], fields[c].dataType)
      {
        NewColumnsAt(arr, 0, c);
        NewConforms(arr.children[c]);
      }
    case _ =>
  }

  /**
   * Two consistently typed arrays of one data type downcast to arrays on
   * which `cmp` never panics for in-range cells: the order is total there.
   */
  lemma NewTotal(x: Array, rowsX: nat, i: nat, y: Array, rowsY: nat, j: nat)
    requires x.dataType == y.dataType && TypeConsistent(x) && TypeConsistent(y)
    requires New(x).Some? && New(y).Some?
    requires WellFormed(New(x).value, rowsX) && i < rowsX && WellFormed(New(y).value, rowsY) && j < rowsY
    ensures Cmp(New(x).value, i, New(y).value, j).Some?
  {
    NewConforms(x);
    NewConforms(y);
    CmpTotal(x.dataType, New(x).value, rowsX, i, New(y).value, rowsY, j);
  }
}
