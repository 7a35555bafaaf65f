/** The URL-safe base64 codec, with the alphabet of section 5 of RFC 4648. */
module Base64 {
  import opened Wrappers
  import opened Attachments

  const INVALID: byte := 0xFF

  // ---------- The alphabet ----------

  /** The armor table, by its ranges: A-Z, a-z, 0-9, '-' and '_'. */
  function Armor(v: byte): byte
    requires v < 64
  {
    if v < 26 then 0x41 + v else if v < 52 then 0x61 + (v - 26) else if v < 62 then 0x30 + (v - 52)
    else if v == 62 then 0x2d else 0x5f
  }

  /** The decode map, which has an entry for every seven-bit value. */
  function Sextet(c: byte): byte
    requires c < 128
  {
    if 0x41 <= c <= 0x5a then c - 0x41 else if 0x61 <= c <= 0x7a then c - 0x61 + 26
    else if 0x30 <= c <= 0x39 then c - 0x30 + 52 else if c == 0x2d then 62 else if c == 0x5f then 63 else INVALID
  }

  predicate IsSpace(c: byte) {
    c == 0x20 || 0x09 <= c <= 0x0d
  }

  /** The decoder ignores the top bit of a character. */
  function Entry(c: byte): byte {
    Sextet(c & 0x7f)
  }

  function Sextets(a: byte, b: byte, c: byte): (byte, byte, byte, byte) {
    ((a >> 2) & 0x3f, ((a << 4) & 0x30) + ((b >> 4) & 0x0f), ((b << 2) & 0x3c) + ((c >> 6) & 0x03), c & 0x3f)
  }

  /** One armored word: three bytes as four characters. */
  function Word(a: byte, b: byte, c: byte): (w: seq<byte>)
    ensures |w| == 4
  {
    SextetsFit(a, b, c);
    var s := Sextets(a, b, c);
    [Armor(s.0), Armor(s.1), Armor(s.2), Armor(s.3)]
  }

  lemma SextetsFit(a: byte, b: byte, c: byte)
    ensures var s := Sextets(a, b, c); s.0 < 64 && s.1 < 64 && s.2 < 64 && s.3 < 64
  {
  }

  lemma AlphabetInverts(v: byte)
    requires v < 64
    ensures Armor(v) < 128 && !IsSpace(Armor(v)) && Entry(Armor(v)) == v && v != INVALID
  {
  }

  /** The seven-bit character is one of the 64 of the alphabet. */
  ghost predicate InAlphabet(c: byte) {
    exists v: byte :: v < 64 && Armor(v) == c
  }

  /** The decode map has an entry for exactly the alphabet, and it is the place of the character in it. */
  lemma EntryIsPlace(c: byte)
    ensures Entry(c) != INVALID <==> InAlphabet(c & 0x7f)
    ensures Entry(c) != INVALID ==> Entry(c) < 64 && Armor(Entry(c)) == c & 0x7f
  {
    if InAlphabet(c & 0x7f) {
      var v: byte :| v < 64 && Armor(v) == c & 0x7f;
      AlphabetInverts(v);
      assert (c & 0x7f) & 0x7f == c & 0x7f;
    }
    if Entry(c) != INVALID {
      assert Entry(c) < 64 && Armor(Entry(c)) == c & 0x7f;
    }
  }

  lemma BitsSurvive(a: byte, b: byte, c: byte)
    ensures var s := Sextets(a, b, c);
            First(s.0, s.1) == a && Second(s.1, s.2) == b && Third(s.2, s.3) == c
  {
  }

  // ---------- Encoding ----------

  function At(s: seq<byte>, i: nat): byte {
    if i < |s| then s[i] else 0
  }

  function WordAt(s: seq<byte>, n: nat): (w: seq<byte>)
    ensures |w| == 4
  {
    Word(At(s, 3 * n), At(s, 3 * n + 1), At(s, 3 * n + 2))
  }

  /** The first n words of the encoding. */
  function EncodedTo(s: seq<byte>, n: nat): (e: seq<byte>)
    ensures |e| == 4 * n
  {
    if n == 0 then [] else EncodedTo(s, n - 1) + WordAt(s, n - 1)
  }

  function Encoded(s: seq<byte>): seq<byte> {
    EncodedTo(s, Words(|s|))
  }

  function Behind<T>(s: seq<T>, n: nat): seq<T> {
    if n <= |s| then s[n..] else []
  }

  function Words(len: nat): nat {
    (len + 2) / 3
  }

  function EncodeLength(len: nat): nat {
    (if len == 0 then 0 else (len + 2) / 3 * 4) + 1
  }

  /** How far behind the last word the terminator is written: the overrun of the last group. */
  function Overrun(len: nat): nat {
    3 * Words(len) - len
  }

  method ArmorWord(a: byte, b: byte, c: byte, out: array<byte>, pos: nat)
    requires pos + 4 <= out.Length
    modifies out
    ensures out[..pos + 4] == old(out[..pos]) + Word(a, b, c)
    ensures out[pos + 4..] == old(out[pos + 4..])
  {
    SextetsFit(a, b, c);
    var w := Word(a, b, c);
    out[pos] := w[0];
    out[pos + 1] := w[1];
    out[pos + 2] := w[2];
    out[pos + 3] := w[3];
  }

  /**
   * The buffer is to hold the words, and a terminator that is written up to two bytes behind the place its length
   * function allows for.
   */
  method Encode(input: seq<byte>, out: array<byte>) returns (outLen: nat)
    requires out.Length >= 4 * Words(|input|) + Overrun(|input|) + 1
    modifies out
    ensures outLen == 4 * Words(|input|)
    ensures out[..outLen] == Encoded(input)
    ensures out[outLen..] == old(out[outLen..])[Overrun(|input|) := 0]
  {
    outLen := ArmorWords(input, out);
    assert out[..outLen] == Encoded(input);
    out[outLen + Overrun(|input|)] := 0;
    assert out[..outLen] == Encoded(input);
  }

  method ArmorWords(input: seq<byte>, out: array<byte>) returns (pos: nat)
    requires out.Length >= 4 * Words(|input|)
    modifies out
    ensures pos == 4 * Words(|input|)
    ensures out[..pos] == Encoded(input) && out[pos..] == old(out[pos..])
  {
    pos := 0;
    var len := 0;
    ghost var words := 0;
    while len < |input|
      invariant len == 3 * words && pos == 4 * words && words <= Words(|input|)
      invariant out[..pos] == EncodedTo(input, words)
      invariant out[pos..] == old(out[pos..])
    {
      assert WordAt(input, words) == Word(input[len], At(input, len + 1), At(input, len + 2));
      ArmorWord(input[len], At(input, len + 1), At(input, len + 2), out, pos);
      assert out[..pos + 4] == EncodedTo(input, words) + WordAt(input, words);
      len, pos, words := len + 3, pos + 4, words + 1;
    }
  }

  /** The encoding starts with the first word, and goes on with the encoding of what is behind it. */
  lemma {:induction false} FirstWord(s: seq<byte>, n: nat)
    ensures EncodedTo(s, n + 1) == WordAt(s, 0) + EncodedTo(Behind(s, 3), n)
  {
    if n == 0 {
      assert EncodedTo(s, 1) == [] + WordAt(s, 0);
    } else {
      FirstWord(s, n - 1);
      WordMoves(s, n);
      SumsAssociate(WordAt(s, 0), EncodedTo(Behind(s, 3), n - 1), WordAt(s, n));
    }
  }

  lemma WordMoves(s: seq<byte>, n: nat)
    requires n > 0
    ensures WordAt(s, n) == WordAt(Behind(s, 3), n - 1)
  {
  }

  /** A buffer of the advertised length is large enough exactly for lengths that are multiples of three. */
  lemma AdvertisedLengthSufficesExactlyWhen(len: nat)
    ensures 4 * Words(len) + Overrun(len) + 1 <= EncodeLength(len) <==> len % 3 == 0
    ensures 4 * Words(len) + Overrun(len) + 1 <= EncodeLength(len) + 2
  {
  }

  // ---------- Decoding ----------

  /** One group: its bytes, and whether more can follow. */
  datatype Group = More(bytes: seq<byte>) | Last(bytes: seq<byte>) | Bad

  function First(a: byte, b: byte): byte {
    (a << 2) | (b >> 4)
  }

  function Second(b: byte, c: byte): byte {
    ((b << 4) & 0xf0) | (c >> 2)
  }

  function Third(c: byte, d: byte): byte {
    ((c << 6) & 0xc0) | d
  }

  /** White space ends the input; any other character outside the alphabet spoils it. */
  function DecodedGroup(s: seq<byte>): Group
    requires |s| >= 2
  {
    if IsSpace(s[0]) || IsSpace(s[1]) then Last([])
    else if Entry(s[0]) == INVALID || Entry(s[1]) == INVALID then Bad
    else if |s| == 2 || IsSpace(s[2]) then Last([First(Entry(s[0]), Entry(s[1]))])
    else if Entry(s[2]) == INVALID then Bad
    else if |s| == 3 || IsSpace(s[3]) then Last([First(Entry(s[0]), Entry(s[1])), Second(Entry(s[1]), Entry(s[2]))])
    else if Entry(s[3]) == INVALID then Bad
    else More([First(Entry(s[0]), Entry(s[1])), Second(Entry(s[1]), Entry(s[2])), Third(Entry(s[2]), Entry(s[3]))])
  }

  /** The bytes of the groups from here on. */
  function DecodedGroups(s: seq<byte>): Option<seq<byte>>
    decreases |s|
  {
    if |s| < 2 then Some([])
    else
      match DecodedGroup(s)
      case Bad => None
      case Last(bytes) => Some(bytes)
      case More(bytes) =>
        var rest := DecodedGroups(Behind(s, 4));
        if rest.None? then None else Some(bytes + rest.value)
  }

  function Decoded(s: seq<byte>): Option<seq<byte>> {
    if |s| < 2 then None else DecodedGroups(s)
  }

  function DecodeLength(len: nat): nat {
    3 * len / 4 + 2
  }

  /** The body of the decoder's loop: reads at most four characters, writes the bytes of one group. */
  method DecodeGroup(input: seq<byte>, i: nat, out: array<byte>, pos: nat) returns (group: Group)
    requires i + 2 <= |input| && pos + (if |input| - i >= 4 then 3 else |input| - i - 1) <= out.Length
    modifies out
    ensures group == DecodedGroup(input[i..])
    ensures group != Bad ==>
              pos + |group.bytes| <= out.Length && out[..pos + |group.bytes|] == old(out[..pos]) + group.bytes
    ensures group.More? ==> i + 4 <= |input| && |group.bytes| == 3
    ensures var room := if |input| - i >= 4 then 3 else |input| - i - 1; out[pos + room..] == old(out[pos + room..])
  {
    if IsSpace(input[i]) || IsSpace(input[i + 1]) {
      return Last([]);
    }
    var a, b := Entry(input[i]), Entry(input[i + 1]);
    if a == INVALID || b == INVALID {
      return Bad;
    }
    var one := First(a, b);
    out[pos] := one;
    if |input| - i == 2 || IsSpace(input[i + 2]) {
      return Last([one]);
    }
    var c := Entry(input[i + 2]);
    if c == INVALID {
      return Bad;
    }
    var two := Second(b, c);
    out[pos + 1] := two;
    if |input| - i == 3 || IsSpace(input[i + 3]) {
      return Last([one, two]);
    }
    var d := Entry(input[i + 3]);
    if d == INVALID {
      return Bad;
    }
    var three := Third(c, d);
    out[pos + 2] := three;
    return More([one, two, three]);
  }

  /** Reads only inside the input; writes only the first three quarters of its length, which DecodeLength covers. */
  method Decode(input: seq<byte>, out: array<byte>) returns (err: SCLError, outLen: nat)
    requires out.Length >= DecodeLength(|input|)
    modifies out
    ensures err == if Decoded(input).Some? then NoErr else CorruptData
    ensures err == NoErr ==> outLen <= out.Length && out[..outLen] == Decoded(input).value
    ensures err == CorruptData ==> outLen == 0
    ensures out[3 * |input| / 4..] == old(out[3 * |input| / 4..])
  {
    if |input| < 2 {
      return CorruptData, 0;
    }
    var i, pos := 0, 0;
    ghost var bytes, n := [], 0;
    NothingJoined(input);
    while |input| - i >= 2
      invariant i == 4 * n <= |input| && pos == 3 * n
      invariant out[..pos] == bytes
      invariant DecodedGroups(input) == Joined(bytes, DecodedGroups(Behind(input, i)))
      invariant out[3 * |input| / 4..] == old(out[3 * |input| / 4..])
    {
      KeptBehind(|input|, n);
      var group := DecodeGroupBehind(input, i, out, pos, bytes);
      match group {
        case Bad =>
          return CorruptData, 0;
        case Last(last) =>
          return NoErr, pos + |last|;
        case More(more) =>
          bytes := bytes + more;
          i, pos, n := i + 4, pos + 3, n + 1;
      }
    }
    err, outLen := NoErr, pos;
  }

  /** Decodes one group behind the bytes that are there already. */
  method DecodeGroupBehind(input: seq<byte>, i: nat, out: array<byte>, pos: nat, ghost bytes: seq<byte>)
    returns (group: Group)
    requires i + 2 <= |input| && 3 * |input| / 4 <= out.Length
    requires pos + (if |input| - i >= 4 then 3 else |input| - i - 1) <= 3 * |input| / 4
    requires out[..pos] == bytes
    modifies out
    ensures group != Bad ==> pos + |group.bytes| <= out.Length && out[..pos + |group.bytes|] == bytes + group.bytes
    ensures group.More? ==> i + 4 <= |input| && |group.bytes| == 3
    ensures Joined(bytes, DecodedGroups(Behind(input, i))) ==
            match group
            case Bad => None
            case Last(last) => Some(bytes + last)
            case More(more) => Joined(bytes + more, DecodedGroups(Behind(input, i + 4)))
    ensures out[3 * |input| / 4..] == old(out[3 * |input| / 4..])
  {
    ghost var room := if |input| - i >= 4 then 3 else |input| - i - 1;
    ghost var n, all := 3 * |input| / 4, out[..];
    group := DecodeGroup(input, i, out, pos);
    NextGroup(input, i, bytes);
    assert out[n..] == out[pos + room..][n - (pos + room)..];
    assert all[n..] == all[pos + room..][n - (pos + room)..];
  }

  /** Bytes already decoded, in front of what is still to come. */
  function Joined(bytes: seq<byte>, rest: Option<seq<byte>>): Option<seq<byte>> {
    if rest.None? then None else Some(bytes + rest.value)
  }

  lemma NextGroup(s: seq<byte>, i: nat, bytes: seq<byte>)
    requires i + 2 <= |s|
    ensures var group, all := DecodedGroup(s[i..]), Joined(bytes, DecodedGroups(Behind(s, i)));
            match group
            case Bad => all == None
            case Last(last) => all == Some(bytes + last)
            case More(more) => all == Joined(bytes + more, DecodedGroups(Behind(s, i + 4)))
  {
    assert Behind(s, i) == s[i..];
    assert Behind(Behind(s, i), 4) == Behind(s, i + 4);
    if DecodedGroup(s[i..]).More? && DecodedGroups(Behind(s, i + 4)).Some? {
      SumsAssociate(bytes, DecodedGroup(s[i..]).bytes, DecodedGroups(Behind(s, i + 4)).value);
    }
  }

  lemma NothingJoined(s: seq<byte>)
    ensures DecodedGroups(s) == Joined([], DecodedGroups(Behind(s, 0)))
  {
    assert Behind(s, 0) == s;
    assert DecodedGroups(s).Some? ==> [] + DecodedGroups(s).value == DecodedGroups(s).value;
  }

  lemma KeptBehind(len: nat, n: nat)
    requires 4 * n + 2 <= len
    ensures 3 * n + (if len - 4 * n >= 4 then 3 else len - 4 * n - 1) <= 3 * len / 4
  {
  }

  /** The bytes fit the advertised length with two to spare. */
  lemma {:induction false} DecodedFits(s: seq<byte>)
    ensures DecodedGroups(s).Some? ==> |DecodedGroups(s).value| + 2 <= DecodeLength(|s|)
    decreases |s|
  {
    if |s| >= 2 && DecodedGroup(s).More? {
      DecodedFits(Behind(s, 4));
    }
  }

  // ---------- Corrupt input ----------

  /**
   * The character at p is outside the alphabet, and the decoder gets to it: no white space up to there, nor in the
   * first two characters of its group, which are both there.
   */
  ghost predicate Spoils(s: seq<byte>, p: nat) {
    && p < |s| && !InAlphabet(s[p] & 0x7f)
    && forall q: nat | q <= p || q == p / 4 * 4 + 1 :: Continues(s, q)
  }

  /** There is a character at q, and it is no blank, tab, line feed, vertical tab, form feed or carriage return. */
  predicate Continues(s: seq<byte>, q: nat) {
    q < |s| && s[q] !in [0x20, 0x09, 0x0a, 0x0b, 0x0c, 0x0d]
  }

  /** Decoding fails exactly for inputs of less than two characters, and those with a character that spoils them. */
  lemma CorruptExactlyWhen(s: seq<byte>)
    ensures Decoded(s).None? <==> |s| < 2 || exists p: nat :: Spoils(s, p)
  {
    if |s| >= 2 {
      GroupsCorruptExactlyWhen(s);
    }
  }

  lemma {:induction false} GroupsCorruptExactlyWhen(s: seq<byte>)
    ensures DecodedGroups(s).None? <==> exists p: nat :: Spoils(s, p)
    decreases |s|
  {
    if |s| >= 2 {
      FirstGroupCorruptExactlyWhen(s);
      var tail := Behind(s, 4);
      match DecodedGroup(s) {
        case Bad =>
        case Last(_) =>
          forall p: nat
            ensures !Spoils(s, p)
          {
            LastGroupHidesRest(s, p);
          }
        case More(_) =>
          GroupsCorruptExactlyWhen(tail);
          TailSpoils(s);
      }
    } else {
      forall p: nat
        ensures !Spoils(s, p)
      {
        assert Spoils(s, p) ==> Continues(s, p / 4 * 4 + 1);
      }
    }
  }

  lemma TailSpoils(s: seq<byte>)
    requires |s| >= 2 && DecodedGroup(s).More?
    ensures (exists p: nat :: Spoils(s, p)) <==> exists p: nat :: Spoils(Behind(s, 4), p)
  {
    FirstGroupCorruptExactlyWhen(s);
    if p: nat :| Spoils(Behind(s, 4), p) {
      SpoilsBehind(s, p + 4);
    }
    if p: nat :| Spoils(s, p) {
      assert p >= 4;
      SpoilsBehind(s, p);
    }
  }

  /** Within the first group. */
  lemma FirstGroupCorruptExactlyWhen(s: seq<byte>)
    requires |s| >= 2
    ensures DecodedGroup(s) == Bad <==> exists p: nat :: p < 4 && Spoils(s, p)
    ensures DecodedGroup(s).More? ==> |s| >= 4 && forall q: nat | q < 4 :: Continues(s, q)
  {
    forall p: nat | p < 4 && Spoils(s, p)
      ensures DecodedGroup(s) == Bad
    {
      SpoiltGroupIsBad(s, p);
    }
    if DecodedGroup(s) == Bad {
      BadGroupIsSpoilt(s);
    }
    assert DecodedGroup(s).More? ==> Continues(s, 0) && Continues(s, 1) && Continues(s, 2) && Continues(s, 3);
  }

  lemma BadGroupIsSpoilt(s: seq<byte>)
    requires |s| >= 2 && DecodedGroup(s) == Bad
    ensures exists p: nat :: p < 4 && Spoils(s, p)
  {
    var p := if Entry(s[0]) == INVALID then 0 else if Entry(s[1]) == INVALID then 1
             else if Entry(s[2]) == INVALID then 2 else 3;
    EntryIsPlace(s[p]);
    assert Continues(s, 0) && Continues(s, 1);
    assert p >= 2 ==> Continues(s, 2);
    assert p >= 3 ==> Continues(s, 3);
    assert Spoils(s, p);
  }

  lemma SpoiltGroupIsBad(s: seq<byte>, p: nat)
    requires |s| >= 2 && p < 4 && Spoils(s, p)
    ensures DecodedGroup(s) == Bad
  {
    EntryIsPlace(s[p]);
    assert p / 4 * 4 + 1 == 1;
    assert Continues(s, 0) && Continues(s, 1);
    assert p >= 2 ==> Continues(s, 2);
    assert p >= 3 ==> Continues(s, 3);
  }

  /** Behind a group that ends the input nothing is read. */
  lemma LastGroupHidesRest(s: seq<byte>, p: nat)
    requires |s| >= 2 && DecodedGroup(s).Last?
    ensures !Spoils(s, p)
  {
    FirstGroupCorruptExactlyWhen(s);
    assert p >= 4 && Spoils(s, p) ==> Continues(s, 0) && Continues(s, 1) && Continues(s, 2) && Continues(s, 3);
  }

  lemma SpoilsBehind(s: seq<byte>, p: nat)
    requires |s| >= 4 && p >= 4 && forall q: nat | q < 4 :: Continues(s, q)
    ensures Spoils(s, p) <==> Spoils(Behind(s, 4), p - 4)
  {
    var tail := Behind(s, 4);
    assert (p - 4) / 4 == p / 4 - 1;
    if Spoils(s, p) {
      forall q: nat | q <= p - 4 || q == (p - 4) / 4 * 4 + 1
        ensures Continues(tail, q)
      {
        assert Continues(s, q + 4);
      }
    }
    if Spoils(tail, p - 4) {
      forall q: nat | q <= p || q == p / 4 * 4 + 1
        ensures Continues(s, q)
      {
        if q >= 4 {
          assert Continues(tail, q - 4);
        }
      }
    }
  }

  // ---------- Round trip ----------

  /** The input, followed by zero bytes up to a multiple of three. */
  function Padded(s: seq<byte>): seq<byte> {
    s + seq(Overrun(|s|), _ => 0)
  }

  lemma {:induction false} GroupsOfEncoded(s: seq<byte>)
    ensures DecodedGroups(Encoded(s)) == Some(Padded(s))
    decreases |s|
  {
    if s != [] {
      var tail := Behind(s, 3);
      GroupsOfEncoded(tail);
      EncodedStep(s);
      WordDecodes(s[0], At(s, 1), At(s, 2), Encoded(tail), Padded(tail));
      PaddedStep(s);
    } else {
      PaddedLength(s);
    }
  }

  lemma EncodedStep(s: seq<byte>)
    requires s != []
    ensures Encoded(s) == Word(s[0], At(s, 1), At(s, 2)) + Encoded(Behind(s, 3))
  {
    FirstWord(s, Words(|Behind(s, 3)|));
    OneWordMore(s);
    assert Encoded(s) == WordAt(s, 0) + Encoded(Behind(s, 3));
  }

  lemma OneWordMore(s: seq<byte>)
    requires s != []
    ensures Words(|s|) == Words(|Behind(s, 3)|) + 1 && WordAt(s, 0) == Word(s[0], At(s, 1), At(s, 2))
  {
  }

  lemma PaddedStep(s: seq<byte>)
    requires s != []
    ensures Padded(s) == [s[0], At(s, 1), At(s, 2)] + Padded(Behind(s, 3))
  {
    if |s| >= 3 {
      PadBehind(s[..3], s[3..]);
      assert s == s[..3] + s[3..] && s[..3] == [s[0], s[1], s[2]];
    } else if |s| == 2 {
      assert Padded(s) == [s[0], s[1], 0] && Padded(Behind(s, 3)) == [];
    } else {
      assert Padded(s) == [s[0], 0, 0] && Padded(Behind(s, 3)) == [];
    }
  }

  lemma PadBehind(first: seq<byte>, rest: seq<byte>)
    requires |first| == 3
    ensures Padded(first + rest) == first + Padded(rest)
  {
  }

  lemma WordDecodes(a: byte, b: byte, c: byte, rest: seq<byte>, bytes: seq<byte>)
    requires DecodedGroups(rest) == Some(bytes)
    ensures DecodedGroups(Word(a, b, c) + rest) == Some([a, b, c] + bytes)
  {
    var w := Word(a, b, c) + rest;
    WordIsGroup(a, b, c, w);
    assert Behind(w, 4) == rest;
  }

  lemma WordIsGroup(a: byte, b: byte, c: byte, w: seq<byte>)
    requires |w| >= 4 && w[..4] == Word(a, b, c)
    ensures DecodedGroup(w) == More([a, b, c])
  {
    var s := Sextets(a, b, c);
    SextetsFit(a, b, c);
    AlphabetInverts(s.0);
    AlphabetInverts(s.1);
    AlphabetInverts(s.2);
    AlphabetInverts(s.3);
    BitsSurvive(a, b, c);
    assert w[..4][0] == w[0] && w[..4][1] == w[1] && w[..4][2] == w[2] && w[..4][3] == w[3];
  }

  /** Decoding what the encoder reports gives the padded input, and the input itself exactly for multiples of three. */
  lemma RoundTrip(s: seq<byte>)
    ensures Decoded(Encoded(s)) == if s == [] then None else Some(Padded(s))
    ensures Decoded(Encoded(s)) == Some(s) <==> s != [] && |s| % 3 == 0
  {
    GroupsOfEncoded(s);
    PaddedLength(s);
  }

  lemma PaddedLength(s: seq<byte>)
    ensures Padded(s) == s <==> |s| % 3 == 0
    ensures s <= Padded(s) && |Padded(s)| % 3 == 0 && |Padded(s)| <= |s| + 2
  {
    OverrunFills(|s|);
    assert |Padded(s)| == |s| + Overrun(|s|);
    assert Overrun(|s|) == 0 ==> Padded(s) == s;
  }

  lemma OverrunFills(len: nat)
    ensures (len + Overrun(len)) % 3 == 0 && Overrun(len) <= 2 && (Overrun(len) == 0 <==> len % 3 == 0)
  {
  }
}
