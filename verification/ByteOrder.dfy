/** Loading and storing integers and byte arrays in network byte order, through a pointer that moves along. */
module ByteOrder {
  import opened Wrappers
  import opened Attachments

  // ---------- The meaning of stored bytes ----------

  function Bytes16(v: bv16): (b: seq<byte>)
    ensures |b| == 2
  {
    [((v >> 8) & 0xff) as byte, (v & 0xff) as byte]
  }

  function Bytes32(v: bv32): (b: seq<byte>)
    ensures |b| == 4
  {
    [((v >> 24) & 0xff) as byte, ((v >> 16) & 0xff) as byte, ((v >> 8) & 0xff) as byte, (v & 0xff) as byte]
  }

  function Bytes64(v: bv64): (b: seq<byte>)
    ensures |b| == 8
  {
    [((v >> 56) & 0xff) as byte, ((v >> 48) & 0xff) as byte, ((v >> 40) & 0xff) as byte, ((v >> 32) & 0xff) as byte,
     ((v >> 24) & 0xff) as byte, ((v >> 16) & 0xff) as byte, ((v >> 8) & 0xff) as byte, (v & 0xff) as byte]
  }

  function Value16(b: seq<byte>): bv16
    requires |b| == 2
  {
    ((b[0] as bv16) << 8) | (b[1] as bv16)
  }

  function Value32(b: seq<byte>): bv32
    requires |b| == 4
  {
    ((b[0] as bv32) << 24) | ((b[1] as bv32) << 16) | ((b[2] as bv32) << 8) | (b[3] as bv32)
  }

  function Value64(b: seq<byte>): bv64
    requires |b| == 8
  {
    ((b[0] as bv64) << 56) | ((b[1] as bv64) << 48) | ((b[2] as bv64) << 40) | ((b[3] as bv64) << 32) |
    ((b[4] as bv64) << 24) | ((b[5] as bv64) << 16) | ((b[6] as bv64) << 8) | (b[7] as bv64)
  }

  lemma ValuesSurvive(v16: bv16, v32: bv32, v64: bv64)
    ensures Value16(Bytes16(v16)) == v16
    ensures Value32(Bytes32(v32)) == v32
    ensures Value64(Bytes64(v64)) == v64
  {
  }

  /** Network byte order: at every width the upper half of a number is stored before its lower half. */
  lemma UpperHalfComesFirst(v16: bv16, v32: bv32, v64: bv64)
    ensures Bytes16(v16) == [(v16 / 0x100) as byte, (v16 % 0x100) as byte]
    ensures Bytes32(v32) == Bytes16((v32 / 0x1_0000) as bv16) + Bytes16((v32 % 0x1_0000) as bv16)
    ensures Bytes64(v64) == Bytes32((v64 / 0x1_0000_0000) as bv32) + Bytes32((v64 % 0x1_0000_0000) as bv32)
  {
    assert v16 / 0x100 == v16 >> 8 && v16 % 0x100 == v16 & 0xff;
    assert v32 / 0x1_0000 == v32 >> 16 && v32 % 0x1_0000 == v32 & 0xffff;
    assert v64 / 0x1_0000_0000 == v64 >> 32 && v64 % 0x1_0000_0000 == v64 & 0xffff_ffff;
  }

  datatype Field = Field8(v8: byte) | Field16(v16: bv16) | Field32(v32: bv32) | Field64(v64: bv64)
    | FieldBytes(bytes: seq<byte>)

  /** What a loader has to know of a field in advance. */
  datatype Kind = Kind8 | Kind16 | Kind32 | Kind64 | KindBytes(len: nat)

  function KindOf(f: Field): Kind {
    match f
    case Field8(_) => Kind8
    case Field16(_) => Kind16
    case Field32(_) => Kind32
    case Field64(_) => Kind64
    case FieldBytes(b) => KindBytes(|b|)
  }

  function Size(k: Kind): nat {
    match k
    case Kind8 => 1
    case Kind16 => 2
    case Kind32 => 4
    case Kind64 => 8
    case KindBytes(len) => len
  }

  function Stored(f: Field): (b: seq<byte>)
    ensures |b| == Size(KindOf(f))
  {
    match f
    case Field8(v) => [v]
    case Field16(v) => Bytes16(v)
    case Field32(v) => Bytes32(v)
    case Field64(v) => Bytes64(v)
    case FieldBytes(b) => b
  }

  function Loaded(k: Kind, b: seq<byte>): Field
    requires |b| == Size(k)
  {
    match k
    case Kind8 => Field8(b[0])
    case Kind16 => Field16(Value16(b))
    case Kind32 => Field32(Value32(b))
    case Kind64 => Field64(Value64(b))
    case KindBytes(_) => FieldBytes(b)
  }

  function StoredAll(fs: seq<Field>): seq<byte> {
    if fs == [] then [] else Stored(fs[0]) + StoredAll(fs[1..])
  }

  function KindsOf(fs: seq<Field>): seq<Kind> {
    if fs == [] then [] else [KindOf(fs[0])] + KindsOf(fs[1..])
  }

  /** Loads one field after the other; the second result is what lies behind the last one. */
  function LoadedAll(ks: seq<Kind>, b: seq<byte>): Option<(seq<Field>, seq<byte>)>
    decreases |ks|
  {
    if ks == [] then Some(([], b))
    else if |b| < Size(ks[0]) then None
    else
      var rest := LoadedAll(ks[1..], b[Size(ks[0])..]);
      if rest.None? then None
      else Some(([Loaded(ks[0], b[..Size(ks[0])])] + rest.value.0, rest.value.1))
  }

  /** Fields already loaded, in front of those still to come. */
  function Joined(fs: seq<Field>, rest: Option<(seq<Field>, seq<byte>)>): Option<(seq<Field>, seq<byte>)> {
    if rest.None? then None else Some((fs + rest.value.0, rest.value.1))
  }

  lemma JoinedEnds(fs: seq<Field>, rest: Option<(seq<Field>, seq<byte>)>)
    ensures Joined([], rest) == rest
    ensures rest.Some? && rest.value.0 == [] ==> Joined(fs, rest) == Some((fs, rest.value.1))
  {
    if rest.Some? {
      assert [] + rest.value.0 == rest.value.0 && fs + [] == fs;
    }
  }

  lemma NextField(ks: seq<Kind>, i: nat, b: seq<byte>, pos: nat, fs: seq<Field>)
    requires i < |ks| && pos <= |b| && LoadedAll(ks[i..], b[pos..]).Some?
    ensures pos + Size(ks[i]) <= |b|
    ensures var end := pos + Size(ks[i]);
            var f, rest := Loaded(ks[i], b[pos..end]), LoadedAll(ks[i + 1..], b[end..]);
            rest.Some? && Joined(fs, LoadedAll(ks[i..], b[pos..])) == Joined(fs + [f], rest)
  {
    assert ks[i..][0] == ks[i] && ks[i..][1..] == ks[i + 1..];
    var size := Size(ks[i]);
    assert b[pos..][..size] == b[pos..pos + size] && b[pos..][size..] == b[pos + size..];
    var f, rest := Loaded(ks[i], b[pos..pos + size]), LoadedAll(ks[i + 1..], b[pos + size..]);
    assert fs + ([f] + rest.value.0) == fs + [f] + rest.value.0;
  }

  lemma StoredFrom(fs: seq<Field>, i: nat, stored: seq<byte>)
    requires i < |fs|
    ensures StoredAll(fs[i..]) == Stored(fs[i]) + StoredAll(fs[i + 1..])
    ensures stored + StoredAll(fs[i..]) == stored + Stored(fs[i]) + StoredAll(fs[i + 1..])
  {
    assert fs[i..][0] == fs[i] && fs[i..][1..] == fs[i + 1..];
    SumsAssociate(stored, Stored(fs[i]), StoredAll(fs[i + 1..]));
  }

  /** Writing b behind what has been written to a buffer from a position on. */
  lemma Overwritten(all: seq<byte>, pos: nat, stored: seq<byte>, b: seq<byte>)
    requires pos + |stored| + |b| <= |all|
    ensures var now := all[..pos] + stored + all[pos + |stored|..];
            && |now| == |all|
            && now[..pos + |stored|] + b + now[pos + |stored| + |b|..] ==
               all[..pos] + (stored + b) + all[pos + |stored + b|..]
  {
  }

  lemma FieldSurvives(f: Field)
    ensures Loaded(KindOf(f), Stored(f)) == f
  {
  }

  /**
   * Any sequence of fields, stored in order and loaded back in order, comes back unchanged, and loading stops exactly
   * where storing did: before whatever lies behind.
   */
  lemma {:induction false} FieldsSurvive(fs: seq<Field>, after: seq<byte>)
    ensures LoadedAll(KindsOf(fs), StoredAll(fs) + after) == Some((fs, after))
    decreases |fs|
  {
    if fs == [] {
      assert StoredAll(fs) + after == after;
    } else {
      FieldsSurvive(fs[1..], after);
      FirstFieldSurvives(fs[0], KindsOf(fs[1..]), StoredAll(fs[1..]) + after);
      SumsAssociate(Stored(fs[0]), StoredAll(fs[1..]), after);
      assert fs == [fs[0]] + fs[1..];
    }
  }

  lemma FirstFieldSurvives(f: Field, ks: seq<Kind>, b: seq<byte>)
    ensures var all, rest := LoadedAll([KindOf(f)] + ks, Stored(f) + b), LoadedAll(ks, b);
            all == if rest.None? then None else Some(([f] + rest.value.0, rest.value.1))
  {
    FieldSurvives(f);
    assert ([KindOf(f)] + ks)[1..] == ks;
    assert (Stored(f) + b)[..Size(KindOf(f))] == Stored(f) && (Stored(f) + b)[Size(KindOf(f))..] == b;
  }

  // ---------- The pointer ----------

  class Cursor {
    const buffer: array<byte>
    var pos: nat

    constructor (buffer: array<byte>, pos: nat)
      ensures this.buffer == buffer && this.pos == pos
    {
      this.buffer, this.pos := buffer, pos;
    }

    /** The bytes from the position on are replaced by b, and the position moves behind them. */
    twostate predicate Wrote(b: seq<byte>)
      requires old(pos) + |b| <= buffer.Length
      reads this, buffer
    {
      && pos == old(pos) + |b|
      && buffer[..] == old(buffer[..pos]) + b + old(buffer[pos + |b|..])
    }

    method Store8(val: byte)
      requires pos + 1 <= buffer.Length
      modifies this`pos, buffer
      ensures Wrote([val])
    {
      buffer[pos] := val;
      pos := pos + 1;
    }

    method Store16(val: bv16)
      requires pos + 2 <= buffer.Length
      modifies this`pos, buffer
      ensures Wrote(Bytes16(val))
    {
      buffer[pos] := ((val >> 8) & 0xff) as byte;
      buffer[pos + 1] := (val & 0xff) as byte;
      pos := pos + 2;
    }

    method StoreFour(b0: byte, b1: byte, b2: byte, b3: byte)
      requires pos + 4 <= buffer.Length
      modifies this`pos, buffer
      ensures pos == old(pos) + 4
      ensures buffer[..] == old(buffer[..pos]) + [b0, b1, b2, b3] + old(buffer[pos + 4..])
    {
      buffer[pos] := b0;
      buffer[pos + 1] := b1;
      buffer[pos + 2] := b2;
      buffer[pos + 3] := b3;
      pos := pos + 4;
    }

    method Store32(val: bv32)
      requires pos + 4 <= buffer.Length
      modifies this`pos, buffer
      ensures Wrote(Bytes32(val))
    {
      StoreFour(((val >> 24) & 0xff) as byte, ((val >> 16) & 0xff) as byte,
                ((val >> 8) & 0xff) as byte, (val & 0xff) as byte);
    }

    method StoreEight(b: seq<byte>)
      requires pos + 8 <= buffer.Length && |b| == 8
      modifies this`pos, buffer
      ensures Wrote(b)
    {
      StoreFour(b[0], b[1], b[2], b[3]);
      assert buffer[..pos] == old(buffer[..pos]) + b[..4];
      assert buffer[pos + 4..] == old(buffer[pos + 8..]);
      StoreFour(b[4], b[5], b[6], b[7]);
    }

    method Store64(val: bv64)
      requires pos + 8 <= buffer.Length
      modifies this`pos, buffer
      ensures Wrote(Bytes64(val))
    {
      StoreEight([((val >> 56) & 0xff) as byte, ((val >> 48) & 0xff) as byte,
                  ((val >> 40) & 0xff) as byte, ((val >> 32) & 0xff) as byte,
                  ((val >> 24) & 0xff) as byte, ((val >> 16) & 0xff) as byte,
                  ((val >> 8) & 0xff) as byte, (val & 0xff) as byte]);
    }

    method StoreArray(val: seq<byte>)
      requires pos + |val| <= buffer.Length
      modifies this`pos, buffer
      ensures Wrote(val)
    {
      for i := 0 to |val|
        invariant pos == old(pos)
        invariant buffer[..pos + i] == old(buffer[..pos]) + val[..i]
        invariant buffer[pos + i..] == old(buffer[pos + i..])
      {
        ghost var before, rest := buffer[..pos + i], buffer[pos + i..];
        buffer[pos + i] := val[i];
        assert buffer[..pos + i + 1] == before + [val[i]] && buffer[pos + i + 1..] == rest[1..];
        assert val[..i + 1] == val[..i] + [val[i]];
      }
      assert val[..|val|] == val;
      pos := pos + |val|;
    }

    method StorePad(pad: byte, len: nat)
      requires pos + len <= buffer.Length
      modifies this`pos, buffer
      ensures Wrote(seq(len, _ => pad))
    {
      StoreArray(seq(len, _ => pad));
    }

    method Load8() returns (val: byte)
      requires pos + 1 <= buffer.Length
      modifies this`pos
      ensures pos == old(pos) + 1 && val == buffer[old(pos)]
    {
      val := buffer[pos];
      pos := pos + 1;
    }

    method Load16() returns (val: bv16)
      requires pos + 2 <= buffer.Length
      modifies this`pos
      ensures pos == old(pos) + 2 && val == Value16(buffer[old(pos)..pos])
    {
      val := ((buffer[pos] as bv16) << 8) | (buffer[pos + 1] as bv16);
      pos := pos + 2;
    }

    method Load32() returns (val: bv32)
      requires pos + 4 <= buffer.Length
      modifies this`pos
      ensures pos == old(pos) + 4 && val == Value32(buffer[old(pos)..pos])
    {
      val := ((buffer[pos] as bv32) << 24) | ((buffer[pos + 1] as bv32) << 16) |
             ((buffer[pos + 2] as bv32) << 8) | (buffer[pos + 3] as bv32);
      pos := pos + 4;
    }

    method Load64() returns (val: bv64)
      requires pos + 8 <= buffer.Length
      modifies this`pos
      ensures pos == old(pos) + 8 && val == Value64(buffer[old(pos)..pos])
    {
      val := ((buffer[pos] as bv64) << 56) | ((buffer[pos + 1] as bv64) << 48) |
             ((buffer[pos + 2] as bv64) << 40) | ((buffer[pos + 3] as bv64) << 32) |
             ((buffer[pos + 4] as bv64) << 24) | ((buffer[pos + 5] as bv64) << 16) |
             ((buffer[pos + 6] as bv64) << 8) | (buffer[pos + 7] as bv64);
      pos := pos + 8;
    }

    method StoreField(f: Field)
      requires pos + Size(KindOf(f)) <= buffer.Length
      modifies this`pos, buffer
      ensures Wrote(Stored(f))
    {
      match f
      case Field8(v) => Store8(v);
      case Field16(v) => Store16(v);
      case Field32(v) => Store32(v);
      case Field64(v) => Store64(v);
      case FieldBytes(b) => StoreArray(b);
    }

    method LoadField(k: Kind) returns (f: Field)
      requires pos + Size(k) <= buffer.Length
      modifies this`pos
      ensures pos == old(pos) + Size(k) && f == Loaded(k, buffer[old(pos)..pos])
    {
      match k
      case Kind8 =>
        var v := Load8();
        f := Field8(v);
      case Kind16 =>
        var v := Load16();
        f := Field16(v);
      case Kind32 =>
        var v := Load32();
        f := Field32(v);
      case Kind64 =>
        var v := Load64();
        f := Field64(v);
      case KindBytes(len) =>
        var _, b := LoadArray(len, None);
        f := FieldBytes(b);
    }

    /** A caller that stores one field after the other. */
    method StoreFields(fs: seq<Field>)
      requires pos + |StoredAll(fs)| <= buffer.Length
      modifies this`pos, buffer
      ensures Wrote(StoredAll(fs))
    {
      ghost var all, stored := buffer[..], [];
      assert fs[0..] == fs;
      for i := 0 to |fs|
        invariant stored + StoredAll(fs[i..]) == StoredAll(fs)
        invariant pos == old(pos) + |stored| && buffer[..] == all[..old(pos)] + stored + all[pos..]
      {
        stored := StoreNextField(fs, i, all, old(pos), stored);
      }
      assert stored + [] == stored;
    }

    /** One more field behind those stored since a start. */
    method StoreNextField(fs: seq<Field>, i: nat, ghost all: seq<byte>, ghost start: nat, ghost stored: seq<byte>)
      returns (ghost more: seq<byte>)
      requires i < |fs| && start + |stored + StoredAll(fs[i..])| <= buffer.Length == |all|
      requires pos == start + |stored| && buffer[..] == all[..start] + stored + all[pos..]
      modifies this`pos, buffer
      ensures more + StoredAll(fs[i + 1..]) == stored + StoredAll(fs[i..])
      ensures pos == start + |more| <= |all| && buffer[..] == all[..start] + more + all[pos..]
    {
      StoredFrom(fs, i, stored);
      Overwritten(all, start, stored, Stored(fs[i]));
      StoreField(fs[i]);
      more := stored + Stored(fs[i]);
    }

    /** A caller that loads as many fields of the same kinds. */
    method LoadFields(ks: seq<Kind>) returns (fs: seq<Field>)
      requires pos <= buffer.Length && LoadedAll(ks, buffer[pos..]).Some?
      modifies this`pos
      ensures pos <= buffer.Length && LoadedAll(ks, old(buffer[pos..])) == Some((fs, buffer[pos..]))
    {
      fs := [];
      assert ks[0..] == ks;
      JoinedEnds(fs, LoadedAll(ks, buffer[pos..]));
      for i := 0 to |ks|
        invariant pos <= buffer.Length
        invariant Joined(fs, LoadedAll(ks[i..], buffer[pos..])) == LoadedAll(ks, old(buffer[pos..]))
        invariant LoadedAll(ks[i..], buffer[pos..]).Some?
      {
        NextField(ks, i, buffer[..], pos, fs);
        var f := LoadField(ks[i]);
        fs := fs + [f];
      }
      JoinedEnds(fs, LoadedAll([], buffer[pos..]));
    }

    /** What one caller stores another one loads, and both end at the same place. */
    method StoreThenLoad(fs: seq<Field>) returns (back: seq<Field>)
      requires pos + |StoredAll(fs)| <= buffer.Length
      modifies this`pos, buffer
      ensures back == fs && Wrote(StoredAll(fs))
    {
      var start := pos;
      StoreFields(fs);
      ghost var end := pos;
      assert buffer[start..] == StoredAll(fs) + buffer[end..];
      FieldsSurvive(fs, buffer[end..]);
      pos := start;
      back := LoadFields(KindsOf(fs));
      assert |buffer[pos..]| == |buffer[end..]|;
    }

    /** Only the array load checks the end of the buffer, when it is told where that is. */
    method LoadArray(len: nat, limit: Option<nat>) returns (err: SCLError, val: seq<byte>)
      requires limit.Some? ==> limit.value <= buffer.Length
      requires limit.None? ==> pos + len <= buffer.Length
      modifies this`pos
      ensures err == if limit.Some? && old(pos) + len > limit.value then BufferTooSmall else NoErr
      ensures err == BufferTooSmall ==> pos == old(pos)
      ensures err == NoErr ==> pos == old(pos) + len && val == buffer[old(pos)..pos]
    {
      if limit.Some? && pos + len > limit.value {
        return BufferTooSmall, [];
      }
      val := buffer[pos..pos + len];
      pos := pos + len;
      err := NoErr;
    }
  }
}
