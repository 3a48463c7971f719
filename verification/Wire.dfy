/**
 The wire layer of internal/wmpf/protocol.go: base-128 varints, length-delimited
 records and `skip` with nested groups.

 Each reader has a specification function on a cursor into the data (`ReadVar`,
 `ReadBytes`, `Skip`), which answers with the number of bytes used, and a method
 (`ReadVarAt`, ...) proved against it. The laws at the end are the ones every decoder
 rests on: the outcome of a successful read is settled by the bytes it used, wherever
 they stand, and a varint written by `PutVar` is read back.
 */
module Wire {
  import opened Prelude

  // ---------------------------------------------------------------- writing

  /** bytes.Buffer and *[]byte as the encoders use them: append only. */
  class Buffer {
    var data: seq<byte>

    constructor ()
      ensures data == []
    {
      data := [];
    }

    method WriteByte(c: byte)
      modifies this
      ensures data == old(data) + [c]
    {
      data := data + [c];
    }

    method Write(p: seq<byte>)
      modifies this
      ensures data == old(data) + p
    {
      data := data + p;
    }
  }

  /** The varint encoding of n, least significant group first. */
  function Varint(n: nat): (s: seq<byte>)
    ensures |s| >= 1
  {
    if n < 128 then [n] else [n % 128 + 128] + Varint(n / 128)
  }

  method PutVar(b: Buffer, n: nat)
    modifies b
    ensures b.data == old(b.data) + Varint(n)
  {
    var m := n;
    while m >= 128
      invariant b.data + Varint(m) == old(b.data) + Varint(n)
    {
      ghost var before := b.data;
      b.WriteByte(m % 128 + 128);
      assert before + Varint(m) == b.data + Varint(m / 128);
      m := m / 128;
    }
    b.WriteByte(m);
  }

  function UintField(f: nat, n: nat): seq<byte> { Varint(f * 8) + Varint(n) }

  function BytesField(f: nat, p: seq<byte>): seq<byte> { Varint(f * 8 + 2) + Varint(|p|) + p }

  method PutU(b: Buffer, f: nat, n: nat)
    modifies b
    ensures b.data == old(b.data) + UintField(f, n)
  {
    PutVar(b, f * 8);
    PutVar(b, n);
  }

  /** putS and putB: a Go string is its bytes. */
  method PutB(b: Buffer, f: nat, p: seq<byte>)
    modifies b
    ensures b.data == old(b.data) + BytesField(f, p)
  {
    PutVar(b, f * 8 + 2);
    PutVar(b, |p|);
    b.Write(p);
  }

  // ---------------------------------------------------------------- reading varints

  /**
   A varint at cursor i whose first k groups were already read. The shift 7k may not
   exceed 63, so there are at most ten groups, and of the tenth only the lowest bit fits
   in 64 bits.
   */
  function VarFrom(d: seq<byte>, i: nat, k: nat): (r: Read<nat>)
    requires i <= |d|
    ensures r.Got? ==> 1 <= r.used <= |d| - i
    decreases |d| - i
  {
    if i == |d| || k > 9 then Fail
    else if d[i] < 128 then Got(if k == 9 then d[i] % 2 else d[i], 1)
    else
      match VarFrom(d, i + 1, k + 1)
      case Fail => Fail
      case Got(v, u) => Got(d[i] - 128 + 128 * v, u + 1)
  }

  /** How many values the groups from the k-th on can take. */
  function Room(k: nat): (n: nat)
    requires k <= 9
    ensures n >= 2 && (k < 9 ==> n >= 128)
    decreases 9 - k
  {
    if k == 9 then 2 else 128 * Room(k + 1)
  }

  lemma RoomAt0()
    ensures Room(0) == TWO_64
  {
    assert Room(5) == 128 * 128 * 128 * 128 * 2;
    assert Room(0) == 128 * 128 * 128 * 128 * 128 * Room(5);
  }

  lemma {:induction false} VarFits(d: seq<byte>, i: nat, k: nat)
    requires i <= |d| && VarFrom(d, i, k).Got?
    ensures k <= 9 && VarFrom(d, i, k).value < Room(k)
    decreases |d| - i
  {
    if d[i] >= 128 {
      VarFits(d, i + 1, k + 1);
    }
  }

  function ReadVar(d: seq<byte>, i: nat): (r: Read<nat>)
    requires i <= |d|
    ensures r.Got? ==> 1 <= r.used <= |d| - i
  {
    VarFrom(d, i, 0)
  }

  lemma ReadVarIsUint64(d: seq<byte>, i: nat)
    requires i <= |d|
    ensures var r := ReadVar(d, i); r.Got? ==> r.value < TWO_64
  {
    if ReadVar(d, i).Got? {
      VarFits(d, i, 0);
      RoomAt0();
    }
  }

  function Pow128(k: nat): (p: nat)
    ensures p >= 1
  {
    if k == 0 then 1 else 128 * Pow128(k - 1)
  }

  lemma Pow128At9()
    ensures Pow128(9) == TWO_63
  {
    assert Pow128(5) == 0x8_0000_0000;
    assert Pow128(9) == 128 * 128 * 128 * 128 * Pow128(5);
  }

  lemma {:induction false} Pow128Monotone(j: nat, k: nat)
    requires j <= k
    ensures Pow128(j) <= Pow128(k)
    decreases k - j
  {
    if j < k {
      Pow128Monotone(j + 1, k);
    }
  }

  /** uint64(c & 127) << 7k: the bits beyond 64 are lost. */
  function Group(c: byte, k: nat): nat { (c % 128 * Pow128(k)) % TWO_64 }

  /** The groups occupy disjoint bits, so the source's `|=` is an addition that never carries. */
  lemma GroupAdds(n: nat, c: byte, k: nat)
    requires k <= 9 && n < Pow128(k)
    ensures Group(c, k) == (if k == 9 then c % 2 else c % 128) * Pow128(k)
    ensures n + Group(c, k) < TWO_64
    ensures k <= 8 ==> n + Group(c, k) < Pow128(k + 1)
  {
    Pow128At9();
    var x := c % 128;
    if k <= 8 {
      Pow128Monotone(k + 1, 9);
      assert x * Pow128(k) <= 127 * Pow128(k);
    } else {
      var q, r := x / 2, x % 2;
      assert c % 2 == r;
      assert x * TWO_63 == q * TWO_64 + r * TWO_63;
    }
  }

  /** A read that continues k groups worth n. */
  ghost function Prepend(n: nat, k: nat, r: Read<nat>): Read<nat> {
    match r
    case Fail => Fail
    case Got(v, u) => Got(n + v * Pow128(k), u + k)
  }

  lemma Distribute(c: nat, v: nat, p: nat)
    ensures (c + 128 * v) * p == c * p + v * (128 * p)
  {
  }

  lemma PrependLast(n: nat, k: nat, d: seq<byte>, i: nat)
    requires k <= 9 && i < |d| && n < Pow128(k) && d[i] < 128
    ensures Prepend(n, k, VarFrom(d, i, k)) == Got(n + Group(d[i], k), k + 1)
  {
    GroupAdds(n, d[i], k);
    assert VarFrom(d, i, k) == Got(if k == 9 then d[i] % 2 else d[i] % 128, 1);
  }

  lemma PrependMore(n: nat, k: nat, d: seq<byte>, i: nat)
    requires k <= 8 && i < |d| && n < Pow128(k) && d[i] >= 128
    ensures n + Group(d[i], k) < Pow128(k + 1)
    ensures Prepend(n, k, VarFrom(d, i, k)) == Prepend(n + Group(d[i], k), k + 1, VarFrom(d, i + 1, k + 1))
  {
    GroupAdds(n, d[i], k);
    var r := VarFrom(d, i + 1, k + 1);
    var p: nat, c: nat := Pow128(k), d[i] - 128;
    assert Pow128(k + 1) == 128 * p && Group(d[i], k) == c * p;
    if r.Got? {
      Distribute(c, r.value, p);
      assert VarFrom(d, i, k) == Got(c + 128 * r.value, r.used + 1);
    }
  }

  method ReadVarAt(d: seq<byte>, i: nat) returns (r: Read<nat>)
    requires i <= |d|
    ensures r == ReadVar(d, i)
  {
    var n: nat, k: nat := 0, 0;
    while i + k < |d| && k <= 9
      invariant i + k <= |d| && k <= 10
      invariant k <= 9 ==> n < Pow128(k)
      invariant k <= 9 ==> ReadVar(d, i) == Prepend(n, k, VarFrom(d, i + k, k))
      invariant k == 10 ==> ReadVar(d, i).Fail?
    {
      var c := d[i + k];
      if c < 128 {
        PrependLast(n, k, d, i + k);
        return Got(n + Group(c, k), k + 1);
      }
      if k <= 8 {
        PrependMore(n, k, d, i + k);
        n := n + Group(c, k);
      }
      k := k + 1;
    }
    return Fail;
  }

  // ---------------------------------------------------------------- records and skipping

  function ReadBytes(d: seq<byte>, i: nat): (r: Read<seq<byte>>)
    requires i <= |d|
    ensures r.Got? ==> 1 <= r.used <= |d| - i && |r.value| < r.used
  {
    match ReadVar(d, i)
    case Fail => Fail
    case Got(n, u) => if n > |d| - (i + u) then Fail else Got(d[i + u..i + u + n], u + n)
  }

  method ReadBytesAt(d: seq<byte>, i: nat) returns (r: Read<seq<byte>>)
    requires i <= |d|
    ensures r == ReadBytes(d, i)
  {
    var v := ReadVarAt(d, i);
    if v.Fail? || v.value > |d| - (i + v.used) {
      return Fail;
    }
    var j := i + v.used;
    return Got(d[j..j + v.value], v.used + v.value);
  }

  /** Where `skip` leaves the cursor for wire type w; wire type 4 does not move it. */
  function Skip(d: seq<byte>, i: nat, w: nat): (next: Option<nat>)
    requires i <= |d|
    ensures next.Some? ==> i <= next.value <= |d|
    decreases |d| - i, 1
  {
    if w == 3 then SkipGroup(d, i) else SkipFlat(d, i, w)
  }

  function SkipFlat(d: seq<byte>, i: nat, w: nat): (next: Option<nat>)
    requires i <= |d|
    ensures next.Some? ==> i <= next.value <= |d|
  {
    match w
    case 0 => (match ReadVar(d, i) case Fail => None case Got(_, u) => Some(i + u))
    case 1 => if |d| - i < 8 then None else Some(i + 8)
    case 2 => (match ReadBytes(d, i) case Fail => None case Got(_, u) => Some(i + u))
    case 4 => Some(i)
    case 5 => if |d| - i < 4 then None else Some(i + 4)
    case _ => None
  }

  /** The body of a group: fields up to and including an end-group tag of any number. */
  function SkipGroup(d: seq<byte>, i: nat): (next: Option<nat>)
    requires i <= |d|
    ensures next.Some? ==> i < next.value <= |d|
    decreases |d| - i, 0
  {
    match ReadVar(d, i)
    case Fail => None
    case Got(tag, u) =>
      if tag % 8 == 4 then Some(i + u)
      else
        match Skip(d, i + u, tag % 8)
        case None => None
        case Some(j) => SkipGroup(d, j)
  }

  /** One whole field of any number: its key, then what `skip` passes over. The value is the field number. */
  function RawField(d: seq<byte>, i: nat): (r: Read<nat>)
    requires i <= |d|
    ensures r.Got? ==> 1 <= r.used <= |d| - i
  {
    match ReadVar(d, i)
    case Fail => Fail
    case Got(key, u) =>
      match Skip(d, i + u, key % 8)
      case None => Fail
      case Some(j) => Got(key / 8, j - i)
  }

  method SkipAt(d: seq<byte>, i: nat, w: nat) returns (next: Option<nat>)
    requires i <= |d|
    ensures next == Skip(d, i, w)
    decreases |d| - i, 1
  {
    match w
    case 0 =>
      var v := ReadVarAt(d, i);
      next := if v.Fail? then None else Some(i + v.used);
    case 1 =>
      next := if |d| - i < 8 then None else Some(i + 8);
    case 2 =>
      var v := ReadBytesAt(d, i);
      next := if v.Fail? then None else Some(i + v.used);
    case 3 =>
      next := SkipGroupAt(d, i);
    case 4 =>
      next := Some(i);
    case 5 =>
      next := if |d| - i < 4 then None else Some(i + 4);
    case _ =>
      next := None;
  }

  /** The loop of `skip` for wire type 3. */
  method SkipGroupAt(d: seq<byte>, i: nat) returns (next: Option<nat>)
    requires i <= |d|
    ensures next == SkipGroup(d, i)
    decreases |d| - i, 0
  {
    var j := i;
    while j < |d|
      invariant i <= j <= |d|
      invariant SkipGroup(d, i) == SkipGroup(d, j)
    {
      var tag := ReadVarAt(d, j);
      if tag.Fail? {
        return None;
      }
      if tag.value % 8 == 4 {
        return Some(j + tag.used);
      }
      var v := SkipAt(d, j + tag.used, tag.value % 8);
      if v.None? {
        return None;
      }
      SkipGroupTurn(d, j, tag, v.value);
      j := v.value;
    }
    return None;
  }

  /** A turn of the group loop that skips a whole field. */
  lemma SkipGroupTurn(d: seq<byte>, i: nat, tag: Read<nat>, j: nat)
    requires i <= |d| && tag.Got? && tag == ReadVar(d, i) && tag.value % 8 != 4
    requires Skip(d, i + tag.used, tag.value % 8) == Some(j)
    ensures SkipGroup(d, i) == SkipGroup(d, j)
  {
  }

  lemma SkipGroupEnd(d: seq<byte>, i: nat, tag: Read<nat>)
    requires i <= |d| && tag == ReadVar(d, i) && tag.Got? && tag.value % 8 == 4
    ensures SkipGroup(d, i) == Some(i + tag.used)
  {
  }

  // ---------------------------------------------------------------- laws

  /** The bytes of d from i to `to` stand in e, too, moved by off. */
  ghost predicate Same(d: seq<byte>, i: nat, to: nat, e: seq<byte>, off: int) {
    i <= to <= |d| && 0 <= i + off && to + off <= |e| && forall x | i <= x < to :: d[x] == e[x + off]
  }

  /** A varint is settled by the bytes it used. */
  lemma {:induction false} VarFrame(d: seq<byte>, i: nat, k: nat, e: seq<byte>, off: int)
    requires i <= |d| && VarFrom(d, i, k).Got?
    requires Same(d, i, i + VarFrom(d, i, k).used, e, off)
    ensures VarFrom(e, i + off, k) == VarFrom(d, i, k)
    decreases |d| - i
  {
    assert d[i] == e[i + off];
    if d[i] >= 128 {
      VarFrame(d, i + 1, k + 1, e, off);
    }
  }

  lemma ReadVarFrame(d: seq<byte>, i: nat, to: nat, e: seq<byte>, off: int)
    requires Same(d, i, to, e, off)
    requires ReadVar(d, i).Got? && i + ReadVar(d, i).used <= to
    ensures ReadVar(e, i + off) == ReadVar(d, i)
  {
    VarFrame(d, i, 0, e, off);
  }

  lemma ReadBytesFrame(d: seq<byte>, i: nat, to: nat, e: seq<byte>, off: int)
    requires Same(d, i, to, e, off)
    requires ReadBytes(d, i).Got? && i + ReadBytes(d, i).used <= to
    ensures ReadBytes(e, i + off) == ReadBytes(d, i)
  {
    ReadVarFrame(d, i, to, e, off);
    var v := ReadVar(d, i);
    var at := i + v.used;
    assert d[at..at + v.value] == e[at + off..at + off + v.value];
  }

  /** What the first turn of the group loop found: an end key, or a field that ends at m. */
  lemma GroupTurn(d: seq<byte>, i: nat, to: nat) returns (tag: Read<nat>, m: nat)
    requires i <= |d| && SkipGroup(d, i) == Some(to)
    ensures tag == ReadVar(d, i) && tag.Got? && 1 <= tag.used && i + tag.used <= m <= to <= |d|
    ensures if tag.value % 8 == 4 then m == to == i + tag.used
            else Skip(d, i + tag.used, tag.value % 8) == Some(m) && SkipGroup(d, m) == Some(to)
  {
    tag := ReadVar(d, i);
    m := if tag.value % 8 == 4 then to else Skip(d, i + tag.used, tag.value % 8).value;
  }

  lemma {:induction false} VarintRead(n: nat, d: seq<byte>, i: nat, k: nat)
    requires k <= 9 && n < Room(k)
    requires Same(Varint(n), 0, |Varint(n)|, d, i)
    ensures VarFrom(d, i, k) == Got(n, |Varint(n)|)
    decreases 9 - k
  {
    var s := Varint(n);
    assert s[0] == d[i];
    if n >= 128 {
      var t := Varint(n / 128);
      assert s == [n % 128 + 128] + t;
      assert forall x | 0 <= x < |t| :: t[x] == s[x + 1];
      VarintRead(n / 128, d, i + 1, k + 1);
    }
  }

  /** What PutVar writes, ReadVar reads, wherever it stands. */
  lemma ReadVarint(n: nat, d: seq<byte>, i: nat)
    requires n < TWO_64
    requires Same(Varint(n), 0, |Varint(n)|, d, i)
    ensures ReadVar(d, i) == Got(n, |Varint(n)|)
  {
    RoomAt0();
    VarintRead(n, d, i, 0);
  }

  /** What putS and putB write behind the key, ReadBytes reads. */
  lemma ReadRecord(p: seq<byte>, d: seq<byte>, i: nat)
    requires |p| < TWO_64
    requires Same(Varint(|p|) + p, 0, |Varint(|p|) + p|, d, i)
    ensures ReadBytes(d, i) == Got(p, |Varint(|p|) + p|)
  {
    var h := Varint(|p|);
    var r := h + p;
    assert forall x | 0 <= x < |h| :: h[x] == r[x];
    ReadVarint(|p|, d, i);
    assert forall x | 0 <= x < |p| :: p[x] == r[x + |h|];
    assert d[i + |h|..i + |h| + |p|] == p;
  }
}
