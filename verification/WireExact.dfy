/**
 The readers of Wire.dfy against the grammar: each finds exactly the beginning that
 WireGrammar.dfy derives, and there is only one.
 */
module WireExact {
  import opened Prelude
  import opened Wire
  import opened WireGrammar

  // ---------------------------------------------------------------- varints

  /** The tail of a varint, of which k bytes are read already. */
  predicate IsTail(b: seq<byte>, k: nat) {
    1 <= |b| <= 10 - k && b[|b| - 1] < 128 && forall j | 0 <= j < |b| - 1 :: b[j] >= 128
  }

  lemma TailFirst(b: seq<byte>, k: nat)
    requires b != []
    ensures IsTail(b, k) <==> k <= 9 && if b[0] < 128 then |b| == 1 else IsTail(b[1..], k + 1)
  {
    var t := b[1..];
    if b[0] >= 128 && IsTail(t, k + 1) {
      assert forall j | 0 <= j < |b| - 1 :: b[j] == if j == 0 then b[0] else t[j - 1];
    }
  }

  /** VarFrom finds a tail, and all there are; what it loses is beyond 64 bits. */
  lemma {:induction false} TailExact(d: seq<byte>, i: nat, k: nat, n: nat) returns (lost: nat)
    requires k <= 9 && 1 <= n && i + n <= |d|
    ensures IsTail(d[i..i + n], k) <==> VarFrom(d, i, k).Got? && VarFrom(d, i, k).used == n
    ensures IsTail(d[i..i + n], k) ==> Base128(d[i..i + n]) == VarFrom(d, i, k).value + lost * Room(k)
    decreases |d| - i
  {
    var b := d[i..i + n];
    lost := 0;
    TailFirst(b, k);
    assert b[1..] == d[i + 1..i + n];
    if d[i] < 128 {
      lost := if k == 9 then d[i] / 2 else 0;
      LastLost(d[i], k);
    } else if k < 9 && n > 1 {
      lost := TailExact(d, i + 1, k + 1, n - 1);
      if IsTail(b[1..], k + 1) {
        MoreLost(b, d, i, k, n, lost);
      }
    }
  }

  lemma MoreLost(b: seq<byte>, d: seq<byte>, i: nat, k: nat, n: nat, lost: nat)
    requires k < 9 && 1 < n && i + n <= |d| && b == d[i..i + n] && d[i] >= 128 && IsTail(b[1..], k + 1)
    requires VarFrom(d, i + 1, k + 1).Got? && Base128(b[1..]) == VarFrom(d, i + 1, k + 1).value + lost * Room(k + 1)
    ensures VarFrom(d, i, k).Got? && Base128(b) == VarFrom(d, i, k).value + lost * Room(k)
  {
    var v := VarFrom(d, i + 1, k + 1).value;
    Scaled(lost, Room(k + 1));
    assert Base128(b) == d[i] - 128 + 128 * (v + lost * Room(k + 1));
  }

  lemma LastLost(c: byte, k: nat)
    requires k <= 9 && c < 128
    ensures c == if k == 9 then c % 2 + (c / 2) * Room(k) else c + 0 * Room(k)
  {
  }

  lemma Scaled(q: nat, r: nat)
    ensures 128 * (q * r) == q * (128 * r)
  {
  }

  /** ReadVar reads exactly the varint that stands at i, and the number it denotes. */
  lemma VarExact(d: seq<byte>, i: nat, v: nat, n: nat)
    requires i <= |d|
    ensures ReadVar(d, i) == Got(v, n) <==> i + n <= |d| && IsVarint(d[i..i + n]) && v == Denoted(d[i..i + n])
  {
    RoomAt0();
    ReadVarIsUint64(d, i);
    if 1 <= n && i + n <= |d| {
      var lost := TailExact(d, i, 0, n);
      assert IsTail(d[i..i + n], 0) <==> IsVarint(d[i..i + n]);
    }
  }

  /** PutVar writes the shortest varint of its number. */
  lemma {:induction false} VarintShape(n: nat, k: nat)
    requires k <= 9 && n < Room(k)
    ensures var b := Varint(n); IsTail(b, k) && Base128(b) == n && (|b| > 1 ==> b[|b| - 1] != 0)
    decreases 9 - k
  {
    if n >= 128 {
      var t := Varint(n / 128);
      VarintShape(n / 128, k + 1);
      assert Varint(n) == [n % 128 + 128] + t;
      assert Varint(n)[1..] == t;
      TailFirst(Varint(n), k);
    } else {
      assert Varint(n)[1..] == [];
    }
  }

  lemma VarintShortest(n: nat)
    requires n < TWO_64
    ensures var b := Varint(n); IsVarint(b) && Denoted(b) == n && (|b| > 1 ==> b[|b| - 1] != 0)
  {
    RoomAt0();
    VarintShape(n, 0);
    WholeTail(Varint(n), n);
  }

  lemma WholeTail(b: seq<byte>, n: nat)
    requires IsTail(b, 0) && Base128(b) == n < TWO_64
    ensures IsVarint(b) && Denoted(b) == n
  {
  }

  // ---------------------------------------------------------------- records and values

  lemma Parts(d: seq<byte>, i: nat, n: nat, m: nat, j: nat)
    requires n <= m && i + m <= j <= |d|
    ensures d[i..j][..n] == d[i..i + n]
    ensures d[i..j][n..m] == d[i + n..i + m]
    ensures d[i..j][m..] == d[i + m..j]
  {
    assert forall x | 0 <= x < m - n :: d[i..j][n..m][x] == d[i + n..i + m][x];
  }

  lemma RecordSound(d: seq<byte>, i: nat, content: seq<byte>, n: nat)
    requires i <= |d| && ReadBytes(d, i) == Got(content, n)
    ensures i + n <= |d| && IsRecord(d[i..i + n], content)
  {
    var v := ReadVar(d, i);
    VarExact(d, i, v.value, v.used);
    Parts(d, i, v.used, v.used, i + n);
  }

  lemma RecordComplete(d: seq<byte>, i: nat, content: seq<byte>, n: nat)
    requires i + n <= |d| && IsRecord(d[i..i + n], content)
    ensures ReadBytes(d, i) == Got(content, n)
  {
    var b := d[i..i + n];
    var u: nat :| u <= |b| && IsVarint(b[..u]) && Denoted(b[..u]) == |content| && content == b[u..];
    Parts(d, i, u, u, i + n);
    VarExact(d, i, |content|, u);
  }

  lemma BytesExact(d: seq<byte>, i: nat, content: seq<byte>, n: nat)
    requires i <= |d|
    ensures ReadBytes(d, i) == Got(content, n) <==> i + n <= |d| && IsRecord(d[i..i + n], content)
  {
    if ReadBytes(d, i) == Got(content, n) {
      RecordSound(d, i, content, n);
    }
    if i + n <= |d| && IsRecord(d[i..i + n], content) {
      RecordComplete(d, i, content, n);
    }
  }

  // ---------------------------------------------------------------- skip

  lemma ValueIs(b: seq<byte>, w: nat)
    ensures Derived(b, w) <==> IsValue(b, w)
    ensures w == 3 ==> (Derived(b, w) <==> DerivedGroup(b))
  {
    assert Asked(0);
  }

  lemma GroupEnd(b: seq<byte>, n: nat)
    requires 1 <= n == |b| && IsVarint(b[..n]) && Denoted(b[..n]) % 8 == 4
    ensures DerivedGroup(b)
  {
    assert GroupAt(b, n, n);
  }

  lemma GroupMore(b: seq<byte>, n: nat, m: nat)
    requires 1 <= n <= m <= |b| && IsVarint(b[..n]) && Denoted(b[..n]) % 8 != 4
    requires Derived(b[n..m], Denoted(b[..n]) % 8) && DerivedGroup(b[m..])
    ensures DerivedGroup(b)
  {
    assert Asked(0);
    assert GroupAt(b, n, m);
  }

  lemma GroupSplit(b: seq<byte>) returns (n: nat, m: nat)
    requires DerivedGroup(b)
    ensures 1 <= n <= m <= |b| && IsVarint(b[..n])
    ensures if Denoted(b[..n]) % 8 == 4 then n == m == |b| else Derived(b[n..m], Denoted(b[..n]) % 8) && DerivedGroup(b[m..])
  {
    assert Asked(0);
    assert IsGroup(b);
    n, m :| GroupAt(b, n, m);
  }

  lemma {:induction false} SkipSound(d: seq<byte>, i: nat, w: nat, j: nat)
    requires i <= |d| && Skip(d, i, w) == Some(j)
    ensures Derived(d[i..j], w)
    decreases |d| - i, 1
  {
    match w
    case 0 => VarExact(d, i, ReadVar(d, i).value, j - i);
    case 2 => BytesExact(d, i, ReadBytes(d, i).value, j - i);
    case 3 =>
      GroupSound(d, i, j);
      ValueIs(d[i..j], 3);
    case _ =>
  }

  lemma {:induction false} GroupSound(d: seq<byte>, i: nat, j: nat)
    requires i <= |d| && SkipGroup(d, i) == Some(j)
    ensures DerivedGroup(d[i..j])
    decreases |d| - i, 0
  {
    var tag, mid := GroupTurn(d, i, j);
    var key, n := tag.value, tag.used;
    if key % 8 == 4 {
      GroupEnds(d, i, key, n);
    } else {
      SkipSound(d, i + n, key % 8, mid);
      GroupSound(d, mid, j);
      GroupJoins(d, i, key, n, mid, j);
    }
  }

  lemma GroupEnds(d: seq<byte>, i: nat, key: nat, n: nat)
    requires i + n <= |d| && ReadVar(d, i) == Got(key, n) && key % 8 == 4
    ensures DerivedGroup(d[i..i + n])
  {
    VarExact(d, i, key, n);
    assert d[i..i + n][..n] == d[i..i + n];
    GroupEnd(d[i..i + n], n);
  }

  lemma GroupJoins(d: seq<byte>, i: nat, key: nat, n: nat, mid: nat, j: nat)
    requires i + n <= mid <= j <= |d| && 1 <= n && ReadVar(d, i) == Got(key, n) && key % 8 != 4
    requires Derived(d[i + n..mid], key % 8) && DerivedGroup(d[mid..j])
    ensures DerivedGroup(d[i..j])
  {
    var m := mid - i;
    assert i + m == mid;
    VarExact(d, i, key, n);
    Parts(d, i, n, m, j);
    GroupMore(d[i..j], n, m);
  }

  lemma {:induction false} SkipComplete(d: seq<byte>, i: nat, w: nat, j: nat)
    requires i <= j <= |d| && Derived(d[i..j], w)
    ensures Skip(d, i, w) == Some(j)
    decreases |d| - i, 1
  {
    var b := d[i..j];
    ValueIs(b, w);
    match w
    case 0 => VarExact(d, i, Denoted(b), j - i);
    case 2 =>
      var content :| IsRecord(b, content);
      BytesExact(d, i, content, j - i);
    case 3 => GroupComplete(d, i, j);
    case _ =>
  }

  lemma {:induction false} GroupComplete(d: seq<byte>, i: nat, j: nat)
    requires i <= j <= |d| && DerivedGroup(d[i..j])
    ensures SkipGroup(d, i) == Some(j)
    decreases |d| - i, 0
  {
    var key, n, mid := GroupCut(d, i, j);
    if key % 8 == 4 {
      SkipGroupEnd(d, i, Got(key, n));
    } else {
      SkipComplete(d, i + n, key % 8, mid);
      GroupComplete(d, mid, j);
      SkipGroupTurn(d, i, Got(key, n), mid);
    }
  }

  /** Where the first field of the group ends. */
  lemma GroupCut(d: seq<byte>, i: nat, j: nat) returns (key: nat, n: nat, mid: nat)
    requires i <= j <= |d| && DerivedGroup(d[i..j])
    ensures ReadVar(d, i) == Got(key, n) && 1 <= n && i + n <= mid <= j
    ensures if key % 8 == 4 then mid == i + n == j else Derived(d[i + n..mid], key % 8) && DerivedGroup(d[mid..j])
  {
    var m;
    n, m := GroupSplit(d[i..j]);
    key, mid := Denoted(d[i..j][..n]), i + m;
    Parts(d, i, n, m, j);
    VarExact(d, i, key, n);
  }

  /** skip stops at j exactly if what lies before j is a value of that wire type. */
  lemma SkipExact(d: seq<byte>, i: nat, w: nat, j: nat)
    requires i <= |d|
    ensures Skip(d, i, w) == Some(j) <==> i <= j <= |d| && IsValue(d[i..j], w)
  {
    if Skip(d, i, w) == Some(j) {
      SkipSound(d, i, w, j);
      ValueIs(d[i..j], w);
    }
    if i <= j <= |d| && IsValue(d[i..j], w) {
      ValueIs(d[i..j], w);
      SkipComplete(d, i, w, j);
    }
  }

  /** A whole field is found exactly where one stands. */
  lemma RawFieldExact(d: seq<byte>, i: nat, number: nat, n: nat)
    requires i <= |d|
    ensures RawField(d, i) == Got(number, n) <==> i + n <= |d| && IsField(d[i..i + n], number)
  {
    if RawField(d, i) == Got(number, n) {
      FieldSound(d, i, number, n);
    }
    if i + n <= |d| && IsField(d[i..i + n], number) {
      FieldComplete(d, i, number, n);
    }
  }

  lemma RawFieldFrom(d: seq<byte>, i: nat, key: nat, u: nat, j: nat)
    requires i <= |d| && ReadVar(d, i) == Got(key, u) && Skip(d, i + u, key % 8) == Some(j)
    ensures RawField(d, i) == Got(key / 8, j - i)
  {
  }

  lemma RawFieldTurn(d: seq<byte>, i: nat) returns (key: nat, u: nat)
    requires i <= |d| && RawField(d, i).Got?
    ensures ReadVar(d, i) == Got(key, u) && RawField(d, i).value == key / 8
    ensures u <= RawField(d, i).used && Skip(d, i + u, key % 8) == Some(i + RawField(d, i).used)
  {
    key, u := ReadVar(d, i).value, ReadVar(d, i).used;
  }

  lemma FieldComplete(d: seq<byte>, i: nat, number: nat, n: nat)
    requires i + n <= |d| && IsField(d[i..i + n], number)
    ensures RawField(d, i) == Got(number, n)
  {
    var key, u := FieldCut(d, i, number, i + n);
    SkipComplete(d, i + u, key % 8, i + n);
    RawFieldFrom(d, i, key, u, i + n);
  }

  /** The key of a field. */
  lemma FieldCut(d: seq<byte>, i: nat, number: nat, j: nat) returns (key: nat, u: nat)
    requires i <= j <= |d| && IsField(d[i..j], number)
    ensures ReadVar(d, i) == Got(key, u) && key / 8 == number && i + u <= j && Derived(d[i + u..j], key % 8)
  {
    u := FieldSplit(d[i..j], number);
    key := Denoted(d[i..j][..u]);
    Parts(d, i, u, u, j);
    VarExact(d, i, key, u);
  }

  lemma FieldSplit(b: seq<byte>, number: nat) returns (u: nat)
    requires IsField(b, number)
    ensures u <= |b| && IsVarint(b[..u]) && Denoted(b[..u]) / 8 == number && Derived(b[u..], Denoted(b[..u]) % 8)
  {
    u :| FieldAt(b, u, number);
  }

  lemma FieldJoin(b: seq<byte>, u: nat, number: nat)
    requires u <= |b| && IsVarint(b[..u]) && Denoted(b[..u]) / 8 == number && Derived(b[u..], Denoted(b[..u]) % 8)
    ensures IsField(b, number)
  {
    assert Asked(0);
    assert FieldAt(b, u, number);
  }

  lemma FieldSound(d: seq<byte>, i: nat, number: nat, n: nat)
    requires i <= |d| && RawField(d, i) == Got(number, n)
    ensures i + n <= |d| && IsField(d[i..i + n], number)
  {
    var key, u := RawFieldTurn(d, i);
    VarExact(d, i, key, u);
    SkipSound(d, i + u, key % 8, i + n);
    Parts(d, i, u, u, i + n);
    FieldJoin(d[i..i + n], u, number);
  }

  // ---------------------------------------------------------------- prefix locality

  lemma SameSlice(d: seq<byte>, i: nat, to: nat, e: seq<byte>, off: int, from: nat, end: nat)
    requires Same(d, i, to, e, off) && from == i + off && end == to + off
    ensures d[i..to] == e[from..end]
  {
  }

  /** What `skip` passes over is settled by those bytes, through any nesting of groups. */
  lemma SkipFrame(d: seq<byte>, i: nat, w: nat, to: nat, e: seq<byte>, off: int)
    requires Same(d, i, to, e, off)
    requires Skip(d, i, w) == Some(to)
    ensures Skip(e, i + off, w) == Some(to + off)
  {
    SkipExact(d, i, w, to);
    SameSlice(d, i, to, e, off, i + off, to + off);
    SkipExact(e, i + off, w, to + off);
  }

  lemma RawFieldFrame(d: seq<byte>, i: nat, to: nat, e: seq<byte>, off: int)
    requires Same(d, i, to, e, off)
    requires RawField(d, i).Got? && i + RawField(d, i).used <= to
    ensures RawField(e, i + off) == RawField(d, i)
  {
    var number, n := RawField(d, i).value, RawField(d, i).used;
    var from: nat, end: nat := i + off, i + off + n;
    RawFieldExact(d, i, number, n);
    SameSlice(d, i, i + n, e, off, from, end);
    RawFieldExact(e, from, number, n);
  }
}
