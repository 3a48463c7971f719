/**
 The lossless decoder of internal/wmpf/generic.go: it cuts a message into raw fields
 without a schema. Unlike `skip` it knows no groups and no field number 0.
 */
module Generic {
  import opened Prelude
  import opened Wire
  import opened WireGrammar
  import opened WireExact

  datatype WireField = WireField(number: nat, wireType: nat, raw: seq<byte>, value: seq<byte>)

  datatype GenericMessage = GenericMessage(type_: string, fields: seq<WireField>)

  /** From cursor i on, d is a run of fields that `skip` finds whole, none of them a group or numbered 0. */
  predicate Accepted(d: seq<byte>, i: nat)
    requires i <= |d|
    decreases |d| - i
  {
    i == |d| ||
    (RawField(d, i).Got? && Plain(ReadVar(d, i).value) && Accepted(d, i + RawField(d, i).used))
  }

  /** A key of a numbered field whose wire type is varint, fixed64, record or fixed32. */
  predicate Plain(key: nat) {
    key / 8 >= 1 && key % 8 in {0, 1, 2, 5}
  }

  function Raws(fields: seq<WireField>): seq<byte> {
    if fields == [] then [] else Raws(fields[..|fields| - 1]) + fields[|fields| - 1].raw
  }

  /** f.raw is one whole field: its key gives the number and wire type, f.value is all behind the key. */
  ghost predicate Whole(f: WireField) {
    && RawField(f.raw, 0) == Got(f.number, |f.raw|)
    && ReadVar(f.raw, 0).Got? && Plain(ReadVar(f.raw, 0).value)
    && ReadVar(f.raw, 0).value == f.number * 8 + f.wireType
    && f.value == f.raw[ReadVar(f.raw, 0).used..]
  }

  /** The wire-type switch of DecodeGeneric: where it leaves the cursor. */
  method StepOver(d: seq<byte>, i: nat, w: nat) returns (next: Option<nat>)
    requires i <= |d|
    ensures w in {0, 1, 2, 5} ==> next == Skip(d, i, w)
    ensures w !in {0, 1, 2, 5} ==> next.None?
  {
    match w
    case 0 =>
      var v := ReadVarAt(d, i);
      next := if v.Fail? then None else Some(i + v.used);
    case 1 =>
      next := if |d| - i < 8 then None else Some(i + 8);
    case 2 =>
      var l := ReadVarAt(d, i);
      next := if l.Fail? || l.value > |d| - (i + l.used) then None else Some(i + l.used + l.value);
    case 5 =>
      next := if |d| - i < 4 then None else Some(i + 4);
    case _ =>
      next := None;
  }

  /** A field cut out of d is whole. */
  lemma CutWhole(d: seq<byte>, i: nat, key: Read<nat>, next: nat)
    requires i < |d| && key.Got? && key == ReadVar(d, i) && Plain(key.value)
    requires Skip(d, i + key.used, key.value % 8) == Some(next)
    ensures Whole(WireField(key.value / 8, key.value % 8, d[i..next], d[i + key.used..next]))
  {
    var raw := d[i..next];
    assert Same(d, i, next, raw, 0 - i);
    RawFieldFrame(d, i, next, raw, 0 - i);
    ReadVarFrame(d, i, next, raw, 0 - i);
    assert raw[key.used..] == d[i + key.used..next];
  }

  /** A turn of the decoding loop, as the acceptance condition sees it. */
  lemma AcceptedTurn(d: seq<byte>, i: nat, key: Read<nat>, next: Option<nat>)
    requires i < |d| && key == ReadVar(d, i)
    requires key.Got? && Plain(key.value) ==> next == Skip(d, i + key.used, key.value % 8)
    ensures key.Fail? || !Plain(key.value) || next.None? ==> !Accepted(d, i)
    ensures key.Got? && Plain(key.value) && next.Some? ==>
              i < next.value <= |d| && Accepted(d, i) == Accepted(d, next.value)
  {
  }

  ghost predicate AllWhole(fields: seq<WireField>) {
    forall k | 0 <= k < |fields| :: Whole(fields[k])
  }

  lemma RawsStep(d: seq<byte>, i: nat, next: nat, fields: seq<WireField>, f: WireField)
    requires i <= next <= |d| && Raws(fields) == d[..i] && f.raw == d[i..next]
    ensures Raws(fields + [f]) == d[..next]
  {
    assert (fields + [f])[..|fields|] == fields;
    assert d[..next] == d[..i] + f.raw;
  }

  lemma WholeMore(fields: seq<WireField>, f: WireField)
    requires AllWhole(fields) && Whole(f)
    ensures AllWhole(fields + [f])
  {
  }

  /** DecodeGeneric: accepts exactly the accepted runs, and partitions them. */
  method DecodeGeneric(types: set<string>, name: string, d: seq<byte>) returns (r: Option<GenericMessage>)
    ensures r.Some? <==> name in types && Accepted(d, 0)
    ensures r.Some? ==> r.value.type_ == name && Raws(r.value.fields) == d && AllWhole(r.value.fields)
  {
    if name !in types {
      return None;
    }
    var fields: seq<WireField>, i := [], 0;
    ghost var accepted := Accepted(d, 0);
    while i < |d|
      invariant i <= |d| && Raws(fields) == d[..i]
      invariant accepted == Accepted(d, i)
      invariant AllWhole(fields)
    {
      var key := ReadVarAt(d, i);
      if key.Fail? || key.value / 8 < 1 {
        AcceptedTurn(d, i, key, if key.Fail? then None else Skip(d, i + key.used, key.value % 8));
        return None;
      }
      var next := StepOver(d, i + key.used, key.value % 8);
      AcceptedTurn(d, i, key, next);
      if next.None? {
        return None;
      }
      var f := WireField(key.value / 8, key.value % 8, d[i..next.value], d[i + key.used..next.value]);
      CutWhole(d, i, key, next.value);
      WholeMore(fields, f);
      RawsStep(d, i, next.value, fields, f);
      fields, i := fields + [f], next.value;
    }
    assert d[..|d|] == d;
    return Some(GenericMessage(name, fields));
  }

  method EncodeGeneric(m: GenericMessage) returns (out: seq<byte>)
    ensures out == Raws(m.fields)
  {
    out := [];
    for k := 0 to |m.fields|
      invariant out == Raws(m.fields[..k])
    {
      assert m.fields[..k + 1][..k] == m.fields[..k];
      out := out + m.fields[k].raw;
    }
    assert m.fields[..|m.fields|] == m.fields;
  }

  /** Each whole field is accepted on its own, as a single field. */
  lemma WholeAlone(f: WireField)
    requires Whole(f)
    ensures f.raw != [] && Accepted(f.raw, 0) && RawField(f.raw, 0).used == |f.raw|
  {
    assert Accepted(f.raw, |f.raw|);
  }

  /** Whole fields, in any order and number, concatenate to an accepted message. */
  lemma {:induction false} WholeAccepted(fields: seq<WireField>, rest: seq<byte>)
    requires AllWhole(fields) && Accepted(rest, 0)
    ensures Accepted(Raws(fields) + rest, 0)
    decreases |fields|
  {
    if fields == [] {
      assert [] + rest == rest;
    } else {
      var init, f := fields[..|fields| - 1], fields[|fields| - 1];
      WholeFirst(f, rest);
      WholeAccepted(init, f.raw + rest);
      assert Raws(init) + (f.raw + rest) == Raws(init) + f.raw + rest;
    }
  }

  lemma WholeFirst(f: WireField, rest: seq<byte>)
    requires Whole(f) && Accepted(rest, 0)
    ensures Accepted(f.raw + rest, 0)
  {
    var d, n := f.raw + rest, |f.raw|;
    WholeAhead(f, d);
    AcceptedMoved(rest, 0, d, n);
    AcceptedFirst(d, n);
  }

  lemma WholeAhead(f: WireField, d: seq<byte>)
    requires Whole(f) && Same(f.raw, 0, |f.raw|, d, 0)
    ensures RawField(d, 0) == Got(f.number, |f.raw|) && ReadVar(d, 0).Got? && Plain(ReadVar(d, 0).value)
  {
    RawFieldFrame(f.raw, 0, |f.raw|, d, 0);
    ReadVarFrame(f.raw, 0, |f.raw|, d, 0);
  }

  lemma AcceptedFirst(d: seq<byte>, n: nat)
    requires RawField(d, 0).Got? && RawField(d, 0).used == n && Plain(ReadVar(d, 0).value) && Accepted(d, n)
    ensures Accepted(d, 0)
  {
  }

  lemma {:induction false} AcceptedMoved(b: seq<byte>, i: nat, d: seq<byte>, off: nat)
    requires i <= |b| && Accepted(b, i) && |d| == |b| + off && Same(b, 0, |b|, d, off)
    ensures Accepted(d, i + off)
    decreases |b| - i
  {
    if i < |b| {
      RawFieldFrame(b, i, |b|, d, off);
      ReadVarFrame(b, i, |b|, d, off);
      AcceptedMoved(b, i + RawField(b, i).used, d, off);
    }
  }

  // ---------------------------------------------------------------- without the readers

  /** f spelled out: the key's n bytes, then a value of the wire type it names. */
  ghost predicate Spelled(f: WireField, n: nat) {
    && n <= |f.raw| && IsVarint(f.raw[..n]) && Denoted(f.raw[..n]) == f.number * 8 + f.wireType
    && f.number >= 1 && f.wireType in {0, 1, 2, 5} && f.value == f.raw[n..] && IsValue(f.value, f.wireType)
  }

  /** A field is whole exactly if it is spelled so. */
  lemma WholeExact(f: WireField)
    ensures Whole(f) <==> exists n: nat :: Spelled(f, n)
  {
    if Whole(f) {
      WholeSpelled(f);
    }
    if n: nat :| Spelled(f, n) {
      SpelledWhole(f, n);
    }
  }

  lemma WholeSpelled(f: WireField)
    requires Whole(f)
    ensures exists n: nat :: Spelled(f, n)
  {
    var key, u := RawFieldTurn(f.raw, 0);
    VarExact(f.raw, 0, key, u);
    SkipExact(f.raw, u, key % 8, |f.raw|);
    assert f.raw[0..u] == f.raw[..u] && f.raw[u..|f.raw|] == f.raw[u..];
    assert Spelled(f, u);
  }

  lemma SpelledWhole(f: WireField, n: nat)
    requires Spelled(f, n)
    ensures Whole(f)
  {
    var key := f.number * 8 + f.wireType;
    assert f.raw[0..n] == f.raw[..n] && f.raw[n..|f.raw|] == f.raw[n..];
    VarExact(f.raw, 0, key, n);
    SkipExact(f.raw, n, f.wireType, |f.raw|);
    RawFieldFrom(f.raw, 0, key, n, |f.raw|);
  }

  lemma RawsFirst(f: WireField, rest: seq<WireField>)
    ensures Raws([f] + rest) == f.raw + Raws(rest)
    decreases |rest|
  {
    if rest == [] {
      assert [f] + rest == [f] && [f][..0] == [];
    } else {
      var n := |rest| - 1;
      RawsFirst(f, rest[..n]);
      assert ([f] + rest)[..|rest|] == [f] + rest[..n] && ([f] + rest)[|rest|] == rest[n];
    }
  }

  /** The first field of a partition is the one found at its front. */
  lemma FrontField(fields: seq<WireField>) returns (rest: seq<byte>)
    requires AllWhole(fields) && fields != []
    ensures Raws(fields) == fields[0].raw + rest && rest == Raws(fields[1..]) && fields[0].raw != []
    ensures RawField(Raws(fields), 0) == Got(fields[0].number, |fields[0].raw|)
  {
    var f := fields[0];
    rest := Raws(fields[1..]);
    assert fields == [f] + fields[1..];
    RawsFirst(f, fields[1..]);
    RawFieldFrame(f.raw, 0, |f.raw|, f.raw + rest, 0);
  }

  lemma SameField(f: WireField, g: WireField)
    requires Whole(f) && Whole(g) && f.raw == g.raw
    ensures f == g
  {
  }

  lemma SamePrefix(x: seq<byte>, p: seq<byte>, y: seq<byte>, q: seq<byte>)
    requires x + p == y + q && |x| == |y|
    ensures x == y && p == q
  {
    assert x == (x + p)[..|x|] && y == (y + q)[..|y|];
    assert p == (x + p)[|x|..] && q == (y + q)[|y|..];
  }

  lemma SameFront(a: seq<WireField>, b: seq<WireField>)
    requires AllWhole(a) && AllWhole(b) && a != [] && b != [] && Raws(a) == Raws(b)
    ensures a[0] == b[0] && Raws(a[1..]) == Raws(b[1..])
  {
    var p := FrontField(a);
    var q := FrontField(b);
    SamePrefix(a[0].raw, p, b[0].raw, q);
    SameField(a[0], b[0]);
  }

  /** There is one way at most to cut bytes into whole fields, so DecodeGeneric's is the only one. */
  lemma {:induction false} CutIsUnique(a: seq<WireField>, b: seq<WireField>)
    requires AllWhole(a) && AllWhole(b) && Raws(a) == Raws(b)
    ensures a == b
    decreases |a|
  {
    if a != [] && b != [] {
      SameFront(a, b);
      CutIsUnique(a[1..], b[1..]);
      assert a == [a[0]] + a[1..] && b == [b[0]] + b[1..];
    } else if a != [] {
      var _ := FrontField(a);
    } else if b != [] {
      var _ := FrontField(b);
    }
  }

  lemma CutFirst(d: seq<byte>, i: nat) returns (f: WireField, next: nat)
    requires i < |d| && Accepted(d, i)
    ensures i < next <= |d| && Whole(f) && f.raw == d[i..next] && Accepted(d, next)
  {
    var key, u := RawFieldTurn(d, i);
    next := i + RawField(d, i).used;
    f := WireField(key / 8, key % 8, d[i..next], d[i + u..next]);
    CutWhole(d, i, ReadVar(d, i), next);
  }

  /** What is accepted is what can be cut so. */
  lemma {:induction false} AcceptedCut(d: seq<byte>, i: nat) returns (fields: seq<WireField>)
    requires i <= |d| && Accepted(d, i)
    ensures AllWhole(fields) && Raws(fields) == d[i..]
    decreases |d| - i
  {
    fields := [];
    if i < |d| {
      var f, next := CutFirst(d, i);
      var rest := AcceptedCut(d, next);
      RawsFirst(f, rest);
      assert d[i..next] + d[next..] == d[i..];
      fields := [f] + rest;
    }
  }

  lemma AcceptedExact(d: seq<byte>)
    ensures Accepted(d, 0) <==> exists fields :: AllWhole(fields) && Raws(fields) == d
  {
    if Accepted(d, 0) {
      var fields := AcceptedCut(d, 0);
      assert d[0..] == d;
    }
    if fields :| AllWhole(fields) && Raws(fields) == d {
      WholeAccepted(fields, []);
      assert d + [] == d;
    }
  }
}
