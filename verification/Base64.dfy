/** Base64 with padding (section 4 of RFC 4648), in which group ids are stored. */
module Base64 {

  type Byte = b: int | 0 <= b < 256
  type Index = i: int | 0 <= i < 64

  function CharOf(i: Index): char {
    if i < 26 then 'A' + i as char
    else if i < 52 then 'a' + (i - 26) as char
    else if i < 62 then '0' + (i - 52) as char
    else if i == 62 then '+' else '/'
  }

  // The index of a character of the alphabet; any other character gives 0.
  function IndexOf(c: char): Index {
    if 'A' <= c <= 'Z' then (c - 'A') as int
    else if 'a' <= c <= 'z' then (c - 'a') as int + 26
    else if '0' <= c <= '9' then (c - '0') as int + 52
    else if c == '+' then 62 else if c == '/' then 63 else 0
  }

  // The four sextets of three bytes.
  function Sextets(a: Byte, b: Byte, c: Byte): (Index, Index, Index, Index) {
    (a / 4, a % 4 * 16 + b / 16, b % 16 * 4 + c / 64, c % 64)
  }

  // The three bytes of four sextets.
  function Octets(a: Index, b: Index, c: Index, d: Index): (Byte, Byte, Byte) {
    (a * 4 + b / 16, b % 16 * 16 + c / 4, c % 4 * 64 + d)
  }

  function EncodeGroup(a: Byte, b: Byte, c: Byte): (text: string)
    ensures |text| == 4
  {
    var (p, q, r, u) := Sextets(a, b, c);
    [CharOf(p), CharOf(q), CharOf(r), CharOf(u)]
  }

  function Encode(bytes: seq<Byte>): (text: string)
    ensures |text| == 4 * ((|bytes| + 2) / 3)
  {
    if |bytes| == 0 then ""
    else if |bytes| == 1 then EncodeGroup(bytes[0], 0, 0)[..2] + "=="
    else if |bytes| == 2 then EncodeGroup(bytes[0], bytes[1], 0)[..3] + "="
    else EncodeGroup(bytes[0], bytes[1], bytes[2]) + Encode(bytes[3..])
  }

  function DecodeGroup(text: string): seq<Byte>
    requires |text| == 4
  {
    var (a, b, c) := Octets(IndexOf(text[0]), IndexOf(text[1]), IndexOf(text[2]), IndexOf(text[3]));
    if text[2] == '=' then [a] else if text[3] == '=' then [a, b] else [a, b, c]
  }

  function Decode(text: string): seq<Byte> {
    if |text| < 4 then [] else DecodeGroup(text[..4]) + Decode(text[4..])
  }

  lemma IndexOfChar(i: Index)
    ensures IndexOf(CharOf(i)) == i && CharOf(i) != '='
  {
  }

  lemma OctetsOfSextets(a: Byte, b: Byte, c: Byte)
    ensures var (p, q, r, u) := Sextets(a, b, c); Octets(p, q, r, u) == (a, b, c)
  {
    var (p, q, r, u) := Sextets(a, b, c);
    assert q / 16 == a % 4 && q % 16 == b / 16 && r / 4 == b % 16 && r % 4 == c / 64;
  }

  // '=' decodes like a sextet of zeros.
  lemma GroupRoundTrip(a: Byte, b: Byte, c: Byte)
    ensures DecodeGroup(EncodeGroup(a, b, c)) == [a, b, c]
    ensures c == 0 ==> DecodeGroup(EncodeGroup(a, b, c)[..3] + "=") == [a, b]
    ensures b == c == 0 ==> DecodeGroup(EncodeGroup(a, b, c)[..2] + "==") == [a]
  {
    var (p, q, r, u) := Sextets(a, b, c);
    IndexOfChar(p);
    IndexOfChar(q);
    IndexOfChar(r);
    IndexOfChar(u);
    OctetsOfSextets(a, b, c);
  }

  lemma {:induction false} RoundTrip(bytes: seq<Byte>)
    ensures Decode(Encode(bytes)) == bytes
  {
    var text := Encode(bytes);
    if |bytes| == 1 {
      GroupRoundTrip(bytes[0], 0, 0);
      assert text[..4] == text && text[4..] == "";
    } else if |bytes| == 2 {
      GroupRoundTrip(bytes[0], bytes[1], 0);
      assert text[..4] == text && text[4..] == "";
    } else if |bytes| > 2 {
      var group := EncodeGroup(bytes[0], bytes[1], bytes[2]);
      GroupRoundTrip(bytes[0], bytes[1], bytes[2]);
      assert text[..4] == group && text[4..] == Encode(bytes[3..]);
      RoundTrip(bytes[3..]);
    }
  }

  lemma Injective(x: seq<Byte>, y: seq<Byte>)
    requires Encode(x) == Encode(y)
    ensures x == y
  {
    RoundTrip(x);
    RoundTrip(y);
  }

  // ---------- the text itself ----------

  /** The alphabet of the standard: capitals, small letters, digits, plus and slash. */
  lemma CharIsAlphabet(i: Index)
    ensures CharOf(i) == if i < 26 then "ABCDEFGHIJKLMNOPQRSTUVWXYZ"[i]
                         else if i < 52 then "abcdefghijklmnopqrstuvwxyz"[i - 26]
                         else if i < 62 then "0123456789"[i - 52]
                         else if i == 62 then '+' else '/'
  {
  }

  // The byte at i, or the zeros a last group is filled up with.
  function ByteAt(bytes: seq<Byte>, i: nat): Byte {
    if i < |bytes| then bytes[i] else 0
  }

  /** Group j of the text spells the bits of three bytes: its characters' indices, six bits each, make
      up the same number, and a padding sign stands where no byte is left. */
  predicate Spells(text: string, j: nat, bytes: seq<Byte>) {
    && 4 * j + 3 < |text|
    && var p, q, r, u :=
         IndexOf(text[4 * j]), IndexOf(text[4 * j + 1]), IndexOf(text[4 * j + 2]), IndexOf(text[4 * j + 3]);
       && p * 262144 + q * 4096 + r * 64 + u
            == ByteAt(bytes, 3 * j) * 65536 + ByteAt(bytes, 3 * j + 1) * 256 + ByteAt(bytes, 3 * j + 2)
       && text[4 * j] == CharOf(p) && text[4 * j + 1] == CharOf(q)
       && text[4 * j + 2] == (if 3 * j + 1 < |bytes| then CharOf(r) else '=')
       && text[4 * j + 3] == (if 3 * j + 2 < |bytes| then CharOf(u) else '=')
  }

  lemma SextetsAddUp(a: Byte, b: Byte, c: Byte)
    ensures var (p, q, r, u) := Sextets(a, b, c);
            && p * 262144 + q * 4096 + r * 64 + u == a * 65536 + b * 256 + c
            && (c == 0 ==> u == 0) && (b == c == 0 ==> r == 0)
  {
  }

  lemma GroupSpells(a: Byte, b: Byte, c: Byte)
    ensures var text := EncodeGroup(a, b, c);
            && var p, q, r, u := IndexOf(text[0]), IndexOf(text[1]), IndexOf(text[2]), IndexOf(text[3]);
               && p * 262144 + q * 4096 + r * 64 + u == a * 65536 + b * 256 + c
               && text == [CharOf(p), CharOf(q), CharOf(r), CharOf(u)]
               && (c == 0 ==> u == 0) && (b == c == 0 ==> r == 0)
  {
    var (p, q, r, u) := Sextets(a, b, c);
    IndexOfChar(p);
    IndexOfChar(q);
    IndexOfChar(r);
    IndexOfChar(u);
    SextetsAddUp(a, b, c);
  }

  lemma LaterSpells(text: string, bytes: seq<Byte>, j: nat)
    requires 4 * j <= |text| && 3 * j <= |bytes| && Spells(text[4 * j..], 0, bytes[3 * j..])
    ensures Spells(text, j, bytes)
  {
    var text', i := text[4 * j..], 4 * j;
    assert text'[0] == text[i] && text'[1] == text[i + 1] && text'[2] == text[i + 2] && text'[3] == text[i + 3];
  }

  lemma FirstSpells(bytes: seq<Byte>)
    requires bytes != []
    ensures Spells(Encode(bytes), 0, bytes)
  {
    GroupSpells(bytes[0], ByteAt(bytes, 1), ByteAt(bytes, 2));
  }

  // From group j on the text is that of the bytes from there on.
  lemma {:induction false} EncodeFrom(bytes: seq<Byte>, j: nat)
    requires 3 * j <= |bytes|
    ensures 4 * j <= |Encode(bytes)| && Encode(bytes)[4 * j..] == Encode(bytes[3 * j..])
  {
    if j == 0 {
      assert bytes[0..] == bytes;
    } else {
      var rest, i := bytes[3..], j - 1;
      EncodeFrom(rest, i);
      assert Encode(bytes)[4..] == Encode(rest);
      assert Encode(bytes)[4 * j..] == Encode(rest)[4 * i..];
      assert bytes[3 * j..] == rest[3 * i..];
    }
  }

  /** Main result on the text: every group of four characters spells its bytes. */
  lemma EncodeSpells(bytes: seq<Byte>, j: nat)
    requires 3 * j < |bytes|
    ensures Spells(Encode(bytes), j, bytes)
  {
    EncodeFrom(bytes, j);
    FirstSpells(bytes[3 * j..]);
    LaterSpells(Encode(bytes), bytes, j);
  }
}
