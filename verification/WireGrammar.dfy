/**
 The wire format as a grammar that names no reader: a varint and the number it denotes, a
 record, the values of each wire type, groups of any depth included, and a field.
 */
module WireGrammar {
  import opened Prelude

  /** At most ten bytes, all but the last with the high bit. */
  predicate IsVarint(b: seq<byte>) {
    1 <= |b| <= 10 && b[|b| - 1] < 128 && forall j | 0 <= j < |b| - 1 :: b[j] >= 128
  }

  /** The low seven bits of each byte, least significant first. */
  function Base128(b: seq<byte>): nat { if b == [] then 0 else b[0] % 128 + 128 * Base128(b[1..]) }

  /** As a uint64: what the tenth byte puts beyond 64 bits is lost. */
  function Denoted(b: seq<byte>): nat { Base128(b) % TWO_64 }

  /** A length and that many bytes. */
  ghost predicate IsRecord(b: seq<byte>, content: seq<byte>) {
    exists n: nat :: n <= |b| && IsVarint(b[..n]) && Denoted(b[..n]) == |content| && content == b[n..]
  }

  /** A value of wire type w; type 4 ends a group and holds nothing. */
  ghost predicate IsValue(b: seq<byte>, w: nat)
    decreases |b|, 1
  {
    match w
    case 0 => IsVarint(b)
    case 1 => |b| == 8
    case 2 => exists content :: IsRecord(b, content)
    case 3 => IsGroup(b)
    case 4 => b == []
    case 5 => |b| == 4
    case _ => false
  }

  /** Whole fields of any numbers, and an end key of any number. */
  ghost predicate IsGroup(b: seq<byte>)
    decreases |b|, 0
  {
    exists n: nat, m: nat :: GroupAt(b, n, m)
  }

  /** The key has n bytes; either it ends the group, or its value ends at m and the group goes on there. */
  ghost predicate GroupAt(b: seq<byte>, n: nat, m: nat)
    decreases |b|, 0, 0
  {
    && 1 <= n <= m <= |b| && IsVarint(b[..n])
    && if Denoted(b[..n]) % 8 == 4 then n == m == |b|
       else IsValue(b[n..m], Denoted(b[..n]) % 8) && IsGroup(b[m..])
  }

  /** IsValue and IsGroup, sealed: the proofs look one field ahead. */
  ghost predicate Derived(b: seq<byte>, w: nat) {
    forall question: nat {:trigger Asked(question)} | Asked(question) :: IsValue(b, w)
  }

  ghost predicate DerivedGroup(b: seq<byte>) {
    forall question: nat {:trigger Asked(question)} | Asked(question) :: IsGroup(b)
  }

  /** A field: its key, and a value of the key's wire type. */
  ghost predicate IsField(b: seq<byte>, number: nat) {
    exists n: nat :: FieldAt(b, n, number)
  }

  ghost predicate FieldAt(b: seq<byte>, n: nat, number: nat) {
    n <= |b| && IsVarint(b[..n]) && Denoted(b[..n]) / 8 == number && IsValue(b[n..], Denoted(b[..n]) % 8)
  }
}
