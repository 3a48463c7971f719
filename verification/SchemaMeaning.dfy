/**
 What a decoded message means: the decoder finds an entry exactly where SchemaGrammar.dfy
 derives one, and decodes exactly the messages that the entries of a cut mean.
 */
module SchemaMeaning {
  import opened Prelude
  import opened Wire
  import opened WireGrammar
  import opened WireExact
  import opened Schema
  import opened SchemaLaws
  import opened SchemaGrammar

  /** A 64-bit value in a field's Go type: truth, or the low 32 bits, signed for int32. */
  lemma NarrowExact(scalar: Scalar, x: nat)
    requires x < TWO_64
    ensures InRange(scalar, Narrow(scalar, x))
    ensures scalar.Bool? ==> (Narrow(scalar, x) == 0 <==> x == 0)
    ensures scalar.Uint64? ==> Narrow(scalar, x) == x
    ensures scalar.Uint32? || scalar.Int32? ==> (Narrow(scalar, x) - x) % TWO_32 == 0
  {
  }

  // ---------------------------------------------------------------- entries

  /** FindTag finds the last field of the number. */
  lemma {:induction false} TagExact(fields: seq<Field>, number: nat, k: nat)
    ensures FindTag(fields, number) == Some(k) <==> FindsLast(fields, number, k)
    decreases |fields|
  {
    if fields != [] && fields[|fields| - 1].number != number {
      var last := |fields| - 1;
      TagExact(fields[..last], number, k);
      assert forall j | 0 <= j < last :: fields[..last][j] == fields[j];
    }
  }

  lemma RecordHolds(kind: Kind, content: seq<byte>, v: Value)
    requires !kind.Number? && !kind.Fixed32?
    ensures FromRecord(kind, content) == Some(v) <==> Holds(kind, content, v)
  {
  }

  lemma ValueSound(kind: Kind, d: seq<byte>, i: nat, v: Value, j: nat)
    requires i <= |d| && i <= j && ReadValue(kind, d, i) == Got(v, j - i)
    ensures j <= |d| && IsFieldValue(kind, d[i..j], v)
  {
    var n := j - i;
    assert i + n == j;
    match kind
    case Number(scalar) => VarExact(d, i, ReadVar(d, i).value, n);
    case Fixed32 =>
    case _ =>
      var content := ReadBytes(d, i).value;
      BytesExact(d, i, content, n);
      RecordHolds(kind, content, v);
  }

  lemma ValueComplete(kind: Kind, d: seq<byte>, i: nat, v: Value, j: nat)
    requires i <= j <= |d| && IsFieldValue(kind, d[i..j], v)
    ensures ReadValue(kind, d, i) == Got(v, j - i)
  {
    var n := j - i;
    assert i + n == j;
    match kind
    case Number(scalar) => VarExact(d, i, Denoted(d[i..j]), n);
    case Fixed32 =>
    case _ =>
      var content :| IsRecord(d[i..j], content) && Holds(kind, content, v);
      BytesExact(d, i, content, n);
      ValueHeld(kind, d, i, v, content, n);
  }

  lemma ValueHeld(kind: Kind, d: seq<byte>, i: nat, v: Value, content: seq<byte>, n: nat)
    requires i <= |d| && !kind.Number? && !kind.Fixed32? && ReadBytes(d, i) == Got(content, n) && Holds(kind, content, v)
    ensures ReadValue(kind, d, i) == Got(v, n)
  {
    RecordHolds(kind, content, v);
  }

  lemma KnownFrom(schema: Schema, d: seq<byte>, i: nat, key: nat, u: nat, k: nat, x: Read<Value>)
    requires i <= |d| && ReadVar(d, i) == Got(key, u) && FindTag(schema.fields, key / 8) == Some(k)
    requires x == ReadValue(schema.fields[k].kind, d, i + u)
    ensures ReadEntry(schema, d, i) == match x case Fail => Fail case Got(v, n) => Got(Known(k, v), u + n)
  {
  }

  lemma StrayFrom(schema: Schema, d: seq<byte>, i: nat, key: nat, u: nat, next: Option<nat>)
    requires i <= |d| && ReadVar(d, i) == Got(key, u) && FindTag(schema.fields, key / 8).None?
    requires next == Skip(d, i + u, key % 8)
    ensures ReadEntry(schema, d, i) == match next case None => Fail case Some(j) => Got(Stray(d[i..j]), j - i)
  {
  }

  /** Whether the key belongs to a known field, and what is read then. */
  lemma EntryTurn(schema: Schema, d: seq<byte>, i: nat) returns (key: nat, u: nat)
    requires i <= |d| && ReadEntry(schema, d, i).Got?
    ensures ReadVar(d, i) == Got(key, u) && 1 <= u && i + u <= |d|
  {
    key, u := ReadVar(d, i).value, ReadVar(d, i).used;
  }

  lemma NoTag(fields: seq<Field>, number: nat)
    ensures FindTag(fields, number).None? <==> forall j | 0 <= j < |fields| :: fields[j].number != number
  {
    if FindTag(fields, number).Some? {
      TagExact(fields, number, FindTag(fields, number).value);
    }
  }

  lemma EntrySound(schema: Schema, d: seq<byte>, i: nat, e: Entry, n: nat)
    requires i <= |d| && ReadEntry(schema, d, i) == Got(e, n)
    ensures i + n <= |d| && IsEntry(schema, d[i..i + n], e)
  {
    var key, u := EntryTurn(schema, d, i);
    match FindTag(schema.fields, key / 8) {
      case Some(k) => KnownRead(schema, d, i, key, u, k, e, n);
      case None => StrayRead(schema, d, i, key, u, e, n);
    }
  }

  lemma KnownRead(schema: Schema, d: seq<byte>, i: nat, key: nat, u: nat, k: nat, e: Entry, n: nat)
    requires i <= |d| && ReadEntry(schema, d, i) == Got(e, n)
    requires ReadVar(d, i) == Got(key, u) && FindTag(schema.fields, key / 8) == Some(k)
    ensures i + n <= |d| && IsEntry(schema, d[i..i + n], e)
  {
    var x := KnownValue(schema, d, i, key, u, k, e, n);
    KnownSound(schema, d, i, key, u, k, x, n);
  }

  lemma KnownValue(schema: Schema, d: seq<byte>, i: nat, key: nat, u: nat, k: nat, e: Entry, n: nat) returns (v: Value)
    requires i <= |d| && ReadEntry(schema, d, i) == Got(e, n)
    requires ReadVar(d, i) == Got(key, u) && FindTag(schema.fields, key / 8) == Some(k)
    ensures e == Known(k, v) && u <= n && i + n <= |d| && IsFieldValue(schema.fields[k].kind, d[i + u..i + n], v)
  {
    var x := ReadValue(schema.fields[k].kind, d, i + u);
    KnownFrom(schema, d, i, key, u, k, x);
    v := x.value;
    var at, to := i + u, i + n;
    assert to - at == x.used;
    ValueSound(schema.fields[k].kind, d, at, v, to);
  }

  lemma StrayRead(schema: Schema, d: seq<byte>, i: nat, key: nat, u: nat, e: Entry, n: nat)
    requires i <= |d| && ReadEntry(schema, d, i) == Got(e, n)
    requires ReadVar(d, i) == Got(key, u) && FindTag(schema.fields, key / 8).None?
    ensures i + n <= |d| && IsEntry(schema, d[i..i + n], e)
  {
    var next := Skip(d, i + u, key % 8);
    StrayFrom(schema, d, i, key, u, next);
    var to := next.value;
    assert i + n == to;
    SkipSound(d, i + u, key % 8, to);
    StraySound(schema, d, i, key, u, n);
  }

  lemma KnownSound(schema: Schema, d: seq<byte>, i: nat, key: nat, u: nat, k: nat, v: Value, n: nat)
    requires i + n <= |d| && ReadVar(d, i) == Got(key, u) && FindTag(schema.fields, key / 8) == Some(k)
    requires u <= n && IsFieldValue(schema.fields[k].kind, d[i + u..i + n], v)
    ensures IsEntry(schema, d[i..i + n], Known(k, v))
  {
    VarExact(d, i, key, u);
    TagExact(schema.fields, key / 8, k);
    Parts(d, i, u, u, i + n);
    KnownJoin(schema, d[i..i + n], d[i..i + u], d[i + u..i + n], k, v);
  }

  lemma StraySound(schema: Schema, d: seq<byte>, i: nat, key: nat, u: nat, n: nat)
    requires i + n <= |d| && ReadVar(d, i) == Got(key, u) && FindTag(schema.fields, key / 8).None?
    requires u <= n && Derived(d[i + u..i + n], key % 8)
    ensures IsEntry(schema, d[i..i + n], Stray(d[i..i + n]))
  {
    VarExact(d, i, key, u);
    NoTag(schema.fields, key / 8);
    Parts(d, i, u, u, i + n);
    StrayJoin(schema, d[i..i + n], d[i..i + u], d[i + u..i + n]);
  }

  lemma KnownJoin(schema: Schema, b: seq<byte>, key: seq<byte>, rest: seq<byte>, k: nat, v: Value)
    requires |key| <= |b| && b[..|key|] == key && b[|key|..] == rest && IsVarint(key)
    requires k < |schema.fields| && FindsLast(schema.fields, Denoted(key) / 8, k) && IsFieldValue(schema.fields[k].kind, rest, v)
    ensures IsEntry(schema, b, Known(k, v))
  {
    assert EntryAt(schema, b, |key|, Known(k, v));
  }

  lemma StrayJoin(schema: Schema, b: seq<byte>, key: seq<byte>, rest: seq<byte>)
    requires |key| <= |b| && b[..|key|] == key && b[|key|..] == rest && IsVarint(key)
    requires (forall j | 0 <= j < |schema.fields| :: schema.fields[j].number != Denoted(key) / 8) && Derived(rest, Denoted(key) % 8)
    ensures IsEntry(schema, b, Stray(b))
  {
    ValueIs(rest, Denoted(key) % 8);
    assert EntryAt(schema, b, |key|, Stray(b));
  }

  lemma EntryComplete(schema: Schema, d: seq<byte>, i: nat, e: Entry, n: nat)
    requires i + n <= |d| && IsEntry(schema, d[i..i + n], e)
    ensures ReadEntry(schema, d, i) == Got(e, n)
  {
    if e.Known? {
      var u := KnownSplit(schema, d[i..i + n], e.index, e.value);
      Parts(d, i, u, u, i + n);
      KnownComplete(schema, d, i, u, e.index, e.value, n);
    } else {
      var u := StraySplit(schema, d[i..i + n], e.raw);
      Parts(d, i, u, u, i + n);
      StrayComplete(schema, d, i, u, n);
    }
  }

  lemma KnownSplit(schema: Schema, b: seq<byte>, k: nat, v: Value) returns (u: nat)
    requires IsEntry(schema, b, Known(k, v))
    ensures u <= |b| && IsVarint(b[..u]) && k < |schema.fields|
    ensures FindsLast(schema.fields, Denoted(b[..u]) / 8, k) && IsFieldValue(schema.fields[k].kind, b[u..], v)
  {
    u :| EntryAt(schema, b, u, Known(k, v));
  }

  lemma StraySplit(schema: Schema, b: seq<byte>, raw: seq<byte>) returns (u: nat)
    requires IsEntry(schema, b, Stray(raw))
    ensures raw == b && u <= |b| && IsVarint(b[..u]) && Derived(b[u..], Denoted(b[..u]) % 8)
    ensures forall j | 0 <= j < |schema.fields| :: schema.fields[j].number != Denoted(b[..u]) / 8
  {
    u :| EntryAt(schema, b, u, Stray(raw));
    ValueIs(b[u..], Denoted(b[..u]) % 8);
  }

  lemma KnownComplete(schema: Schema, d: seq<byte>, i: nat, u: nat, k: nat, v: Value, n: nat)
    requires i + n <= |d| && u <= n && IsVarint(d[i..i + u]) && k < |schema.fields|
    requires FindsLast(schema.fields, Denoted(d[i..i + u]) / 8, k) && IsFieldValue(schema.fields[k].kind, d[i + u..i + n], v)
    ensures ReadEntry(schema, d, i) == Got(Known(k, v), n)
  {
    var key := Denoted(d[i..i + u]);
    VarExact(d, i, key, u);
    TagExact(schema.fields, key / 8, k);
    ValueComplete(schema.fields[k].kind, d, i + u, v, i + n);
    KnownFrom(schema, d, i, key, u, k, Got(v, n - u));
  }

  lemma StrayComplete(schema: Schema, d: seq<byte>, i: nat, u: nat, n: nat)
    requires i + n <= |d| && u <= n && IsVarint(d[i..i + u]) && Derived(d[i + u..i + n], Denoted(d[i..i + u]) % 8)
    requires forall j | 0 <= j < |schema.fields| :: schema.fields[j].number != Denoted(d[i..i + u]) / 8
    ensures ReadEntry(schema, d, i) == Got(Stray(d[i..i + n]), n)
  {
    var key := Denoted(d[i..i + u]);
    VarExact(d, i, key, u);
    NoTag(schema.fields, key / 8);
    SkipComplete(d, i + u, key % 8, i + n);
    StrayFrom(schema, d, i, key, u, Some(i + n));
  }

  /** The decoding loop finds an entry exactly where one stands. */
  lemma EntryExact(schema: Schema, d: seq<byte>, i: nat, e: Entry, n: nat)
    requires i <= |d|
    ensures ReadEntry(schema, d, i) == Got(e, n) <==> i + n <= |d| && IsEntry(schema, d[i..i + n], e)
  {
    if ReadEntry(schema, d, i) == Got(e, n) {
      EntrySound(schema, d, i, e, n);
    }
    if i + n <= |d| && IsEntry(schema, d[i..i + n], e) {
      EntryComplete(schema, d, i, e, n);
    }
  }

  // ---------------------------------------------------------------- whole messages

  lemma CutMore(schema: Schema, d: seq<byte>, i: nat, n: nat, e: Entry, es: seq<Entry>)
    requires 1 <= n && i + n <= |d| && Finds(schema, d, i, Got(e, n)) && Cut(schema, d[i + n..], es)
    ensures Cut(schema, d[i..], [e] + es)
  {
    assert Asked(0);
    EntrySound(schema, d, i, e, n);
    Parts(d, i, n, n, |d|);
    assert d[i..|d|] == d[i..] && d[i + n..|d|] == d[i + n..];
    assert ([e] + es)[1..] == es;
  }

  lemma {:induction false} CutSound(schema: Schema, d: seq<byte>, i: nat, es: seq<Entry>)
    requires i <= |d| && Parses(schema, d, i, Some(es))
    ensures Cut(schema, d[i..], es)
    decreases |d| - i
  {
    if i == |d| {
      ParsesEnd(schema, d, Some(es));
      assert d[i..] == [];
    } else {
      var r, rest := ParsesTurn(schema, d, i, Some(es));
      CutSound(schema, d, i + r.used, rest.value);
      CutMore(schema, d, i, r.used, r.value, rest.value);
    }
  }

  lemma CutFirst(schema: Schema, b: seq<byte>, es: seq<Entry>) returns (n: nat)
    requires es != [] && IsCut(schema, b, es)
    ensures 1 <= n <= |b| && IsEntry(schema, b[..n], es[0]) && IsCut(schema, b[n..], es[1..])
  {
    n :| 1 <= n <= |b| && IsEntry(schema, b[..n], es[0]) && IsCut(schema, b[n..], es[1..]);
  }

  lemma CutSplit(schema: Schema, d: seq<byte>, i: nat, es: seq<Entry>) returns (n: nat)
    requires es != [] && i <= |d| && Cut(schema, d[i..], es)
    ensures 1 <= n && i + n <= |d| && Finds(schema, d, i, Got(es[0], n)) && Cut(schema, d[i + n..], es[1..])
  {
    assert Asked(0);
    n := CutFirst(schema, d[i..], es);
    Parts(d, i, n, n, |d|);
    assert d[i..|d|] == d[i..] && d[i + n..|d|] == d[i + n..];
    FindsEntry(schema, d, i, es[0], n);
  }

  lemma {:induction false} CutComplete(schema: Schema, d: seq<byte>, i: nat, es: seq<Entry>)
    requires i <= |d| && Cut(schema, d[i..], es)
    ensures Parses(schema, d, i, Some(es))
    decreases |es|
  {
    if es == [] {
      CutNone(schema, d, i);
    } else {
      var n := CutSplit(schema, d, i, es);
      CutComplete(schema, d, i + n, es[1..]);
      ParsesLed(schema, d, i, Got(es[0], n), Some(es[1..]));
      assert es == [es[0]] + es[1..];
    }
  }

  lemma FindsEntry(schema: Schema, d: seq<byte>, i: nat, e: Entry, n: nat)
    requires i < |d| && i + n <= |d| && IsEntry(schema, d[i..i + n], e)
    ensures Finds(schema, d, i, Got(e, n))
  {
    EntryComplete(schema, d, i, e, n);
  }

  lemma CutNone(schema: Schema, d: seq<byte>, i: nat)
    requires i <= |d| && Cut(schema, d[i..], [])
    ensures Parses(schema, d, i, Some([]))
  {
    assert Asked(0);
    assert d[i..] == [];
    ParsesEnd(schema, d, Some([]));
  }

  lemma CutIs(schema: Schema, b: seq<byte>, es: seq<Entry>)
    ensures Cut(schema, b, es) <==> IsCut(schema, b, es)
  {
    assert Asked(0);
  }

  /** A message decodes exactly if its bytes can be cut into entries, and then into these alone. */
  lemma ParseExact(schema: Schema, d: seq<byte>, es: seq<Entry>)
    ensures Parse(schema, d, 0) == Some(es) <==> IsCut(schema, d, es)
  {
    assert d[0..] == d;
    if Parse(schema, d, 0) == Some(es) {
      ParsesWhole(schema, d, 0);
      CutSound(schema, d, 0, es);
      CutIs(schema, d, es);
    }
    if IsCut(schema, d, es) {
      CutIs(schema, d, es);
      CutComplete(schema, d, 0, es);
      ParsesIs(schema, d, 0, Some(es));
    }
  }

  // ---------------------------------------------------------------- what the fields hold

  lemma ApplyMeans(schema: Schema, es: seq<Entry>, m: Message, e: Entry)
    requires Means(schema, es, m) && (e.Known? ==> e.index < |schema.fields|)
    ensures Means(schema, es + [e], Apply(schema, m, e))
  {
    assert (es + [e])[..|es|] == es;
    forall k | 0 <= k < |m.fields|
      ensures Apply(schema, m, e).fields[k] == Meant(schema.fields[k].kind, Given(es + [e], k))
    {
    }
  }

  lemma {:induction false} AllMeans(schema: Schema, done: seq<Entry>, m: Message, es: seq<Entry>)
    requires Means(schema, done, m) && InSchema(schema, es)
    ensures Means(schema, done + es, ApplyAll(schema, m, es))
    decreases |es|
  {
    if es == [] {
      assert done + es == done;
    } else {
      ApplyMeans(schema, done, m, es[0]);
      AllMeans(schema, done + [es[0]], Apply(schema, m, es[0]), es[1..]);
      assert done + [es[0]] + es[1..] == done + es;
    }
  }

  /**
   Decoding, whole: m is decoded from d exactly if d can be cut into entries that mean m.
   */
  lemma DecodeExact(schema: Schema, d: seq<byte>, m: Message)
    ensures Decode(schema, d) == Some(m) <==> exists es :: IsCut(schema, d, es) && Means(schema, es, m)
  {
    if Decode(schema, d) == Some(m) {
      assert DecodeInto(schema, Zero(schema), d, 0) == Some(m);
      var es := Parse(schema, d, 0).value;
      DecodeMeans(schema, d, es);
      assert IsCut(schema, d, es) && Means(schema, es, m);
    }
    if exists es :: IsCut(schema, d, es) && Means(schema, es, m) {
      var es :| IsCut(schema, d, es) && Means(schema, es, m);
      ParseExact(schema, d, es);
      DecodeMeans(schema, d, es);
      OneMeaning(schema, es, m, Decode(schema, d).value);
    }
  }

  lemma DecodeMeans(schema: Schema, d: seq<byte>, es: seq<Entry>)
    requires Parse(schema, d, 0) == Some(es)
    ensures Decode(schema, d).Some? && IsCut(schema, d, es) && Means(schema, es, Decode(schema, d).value)
  {
    ParseExact(schema, d, es);
    ParseInSchema(schema, d, 0);
    assert Means(schema, [], Zero(schema));
    AllMeans(schema, [], Zero(schema), es);
    assert [] + es == es;
  }

  lemma OneMeaning(schema: Schema, es: seq<Entry>, m: Message, m': Message)
    requires Means(schema, es, m) && Means(schema, es, m')
    ensures m == m'
  {
    assert m.fields == m'.fields;
  }
}
