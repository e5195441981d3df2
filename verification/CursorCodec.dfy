// encodeCursor and decodeCursor of server/apiPagination.js. Base64url is written out as in section 5
// of RFC 4648, without padding; JSON text, ISO dates and the scope digest are given functions.
module CursorCodec {
  import opened Options

  const MAX_CURSOR_LENGTH := 2048
  const PAGINATION_VERSION := 1

  type Byte = b: int | 0 <= b < 256

  // ---------------------------------------------------------------- base64url

  predicate IsBase64Url(c: char) {
    'A' <= c <= 'Z' || 'a' <= c <= 'z' || '0' <= c <= '9' || c == '-' || c == '_'
  }

  function CharOf(i: nat): (c: char)
    requires i < 64
    ensures IsBase64Url(c)
  {
    if i < 26 then 'A' + i as char
    else if i < 52 then 'a' + (i - 26) as char
    else if i < 62 then '0' + (i - 52) as char
    else if i == 62 then '-' else '_'
  }

  function IndexOf(c: char): (i: nat)
    ensures i < 64
  {
    if 'A' <= c <= 'Z' then c as int - 'A' as int
    else if 'a' <= c <= 'z' then c as int - 'a' as int + 26
    else if '0' <= c <= '9' then c as int - '0' as int + 52
    else if c == '-' then 62 else 63
  }

  function Encode(bytes: seq<Byte>): string {
    if bytes == [] then ""
    else if |bytes| == 1 then [CharOf(bytes[0] / 4), CharOf(bytes[0] % 4 * 16)]
    else if |bytes| == 2 then
      [CharOf(bytes[0] / 4), CharOf(bytes[0] % 4 * 16 + bytes[1] / 16), CharOf(bytes[1] % 16 * 4)]
    else
      [CharOf(bytes[0] / 4), CharOf(bytes[0] % 4 * 16 + bytes[1] / 16),
       CharOf(bytes[1] % 16 * 4 + bytes[2] / 64), CharOf(bytes[2] % 64)] + Encode(bytes[3..])
  }

  // Lenient, like Buffer.from: leftover bits and a single leftover character are dropped.
  function Decode(s: string): seq<Byte> {
    if |s| < 2 then []
    else
      var c0, c1 := IndexOf(s[0]), IndexOf(s[1]);
      if |s| == 2 then [c0 * 4 + c1 / 16]
      else
        var c2 := IndexOf(s[2]);
        if |s| == 3 then [c0 * 4 + c1 / 16, c1 % 16 * 16 + c2 / 4]
        else [c0 * 4 + c1 / 16, c1 % 16 * 16 + c2 / 4, c2 % 4 * 64 + IndexOf(s[3])] + Decode(s[4..])
  }

  lemma IndexOfChar(i: nat)
    requires i < 64
    ensures IndexOf(CharOf(i)) == i
  {
  }

  lemma JoinBits(a: Byte, b: Byte, c: Byte)
    ensures var c0, c1, c2, c3 := a / 4, a % 4 * 16 + b / 16, b % 16 * 4 + c / 64, c % 64;
      && c0 < 64 && c1 < 64 && c2 < 64 && c3 < 64
      && c0 * 4 + c1 / 16 == a && c1 % 16 * 16 + c2 / 4 == b && c2 % 4 * 64 + c3 == c
  {
  }

  // One group of three bytes, through its four characters.
  lemma {:induction false} Group(a: Byte, b: Byte, c: Byte)
    ensures var c0, c1, c2, c3 := a / 4, a % 4 * 16 + b / 16, b % 16 * 4 + c / 64, c % 64;
      && c0 < 64 && c1 < 64 && c2 < 64 && c3 < 64
      && IndexOf(CharOf(c0)) * 4 + IndexOf(CharOf(c1)) / 16 == a
      && IndexOf(CharOf(c1)) % 16 * 16 + IndexOf(CharOf(c2)) / 4 == b
      && IndexOf(CharOf(c2)) % 4 * 64 + IndexOf(CharOf(c3)) == c
  {
    JoinBits(a, b, c);
    IndexOfChar(a / 4);
    IndexOfChar(a % 4 * 16 + b / 16);
    IndexOfChar(b % 16 * 4 + c / 64);
    IndexOfChar(c % 64);
  }

  lemma {:induction false} EncodedShape(bytes: seq<Byte>)
    ensures forall i :: 0 <= i < |Encode(bytes)| ==> IsBase64Url(Encode(bytes)[i])
    ensures 3 * |Encode(bytes)| <= 4 * |bytes| + 2 && (bytes != [] ==> Encode(bytes) != "")
  {
    hide IsBase64Url, CharOf;
    if |bytes| > 2 { EncodedShape(bytes[3..]); }
  }

  lemma {:induction false} DecodeEncode(bytes: seq<Byte>)
    ensures Decode(Encode(bytes)) == bytes
  {
    hide IsBase64Url, CharOf, IndexOf;
    if bytes != [] {
      Group(bytes[0], if |bytes| > 1 then bytes[1] else 0, if |bytes| > 2 then bytes[2] else 0);
      if |bytes| > 2 {
        DecodeEncode(bytes[3..]);
        assert Encode(bytes)[4..] == Encode(bytes[3..]);
        assert bytes == [bytes[0], bytes[1], bytes[2]] + bytes[3..];
      }
    }
  }

  const ALPHABET := "ABCDEFGHIJKLMNOPQRSTUVWXYZ" + "abcdefghijklmnopqrstuvwxyz" + "0123456789" + "-_"

  lemma {:induction false} CharIsListed(i: nat)
    requires i < 64
    ensures |ALPHABET| == 64 && CharOf(i) == ALPHABET[i]
  {
    if i < 26 {
      assert CharOf(i) == "ABCDEFGHIJKLMNOPQRSTUVWXYZ"[i];
    } else if i < 52 {
      assert CharOf(i) == "abcdefghijklmnopqrstuvwxyz"[i - 26];
    } else if i < 62 {
      assert CharOf(i) == "0123456789"[i - 52];
    }
  }

  // Three bytes as one number of 24 bits, with zeros for the bytes that are missing at the end.
  ghost function GroupNumber(bytes: seq<Byte>, group: nat): nat {
    65536 * ByteAt(bytes, 3 * group) + 256 * ByteAt(bytes, 3 * group + 1) + ByteAt(bytes, 3 * group + 2)
  }

  ghost function ByteAt(bytes: seq<Byte>, i: nat): Byte {
    if i < |bytes| then bytes[i] else 0
  }

  // The six bits of the number for the character at a place of the group.
  ghost function SixBits(number: nat, place: nat): (r: nat)
    requires place < 4
    ensures r < 64
  {
    (match place case 0 => number / 262144 case 1 => number / 4096 case 2 => number / 64 case _ => number) % 64
  }

  lemma {:induction false} SplitNumber(a: Byte, b: Byte, c: Byte)
    ensures var number := 65536 * a + 256 * b + c;
      && SixBits(number, 0) == a / 4 && SixBits(number, 1) == a % 4 * 16 + b / 16
      && SixBits(number, 2) == b % 16 * 4 + c / 64 && SixBits(number, 3) == c % 64
  {
    var number := 65536 * a + 256 * b + c;
    var c0, c1, c2, c3 := a / 4, a % 4 * 16 + b / 16, b % 16 * 4 + c / 64, c % 64;
    JoinBits(a, b, c);
    assert number == 262144 * c0 + 4096 * c1 + 64 * c2 + c3;
    assert number / 64 == 4096 * c0 + 64 * c1 + c2;
    assert number / 4096 == 64 * c0 + c1;
    assert number / 262144 == c0;
  }

  // Each group of three bytes is spelled as four characters of six bits, the highest bits first, and
  // the last group stops after the characters that its bytes reach: section 4 of RFC 4648.
  lemma {:induction false} EncodedBits(bytes: seq<Byte>, k: nat)
    requires k < |Encode(bytes)|
    ensures |Encode(bytes)| == (4 * |bytes| + 2) / 3
    ensures Encode(bytes)[k] == ALPHABET[SixBits(GroupNumber(bytes, k / 4), k % 4)]
  {
    EncodedLength(bytes);
    SpelledBits(bytes, k);
    CharIsListed(SixBits(GroupNumber(bytes, k / 4), k % 4));
    hide Encode, CharOf, SixBits, GroupNumber;
  }

  lemma {:induction false} SpelledBits(bytes: seq<Byte>, k: nat)
    requires k < |Encode(bytes)|
    ensures Encode(bytes)[k] == CharOf(SixBits(GroupNumber(bytes, k / 4), k % 4))
  {
    hide CharOf, SixBits, IsBase64Url, GroupNumber;
    if k < 4 {
      FirstGroup(bytes, k);
    } else {
      SpelledBits(bytes[3..], k - 4);
      GroupFurther(bytes, (k - 4) / 4);
    }
  }

  lemma GroupFurther(bytes: seq<Byte>, group: nat)
    requires |bytes| > 2
    ensures GroupNumber(bytes[3..], group) == GroupNumber(bytes, group + 1)
  {
  }

  lemma {:induction false} FirstGroup(bytes: seq<Byte>, k: nat)
    requires k < |Encode(bytes)| && k < 4
    ensures Encode(bytes)[k] == CharOf(SixBits(GroupNumber(bytes, 0), k))
  {
    hide CharOf, SixBits, IsBase64Url;
    SplitNumber(ByteAt(bytes, 0), ByteAt(bytes, 1), ByteAt(bytes, 2));
  }

  lemma {:induction false} EncodedLength(bytes: seq<Byte>)
    ensures |Encode(bytes)| == (4 * |bytes| + 2) / 3
  {
    if |bytes| > 2 { EncodedLength(bytes[3..]); }
  }

  // ---------------------------------------------------------------- cursors

  datatype CursorDocument = CursorDocument(v: int, q: string, d: string, i: string)

  // The range of a valid JavaScript date.
  const MAX_TIME := 8_640_000_000_000_000

  // What JSON.parse makes of the bytes: an object of the keys v, q, d, i with a number, three texts and
  // nothing else, some other value, or an exception.
  datatype Parsed = NotJson | OtherShape | Parsed(document: CursorDocument)

  // JSON and ISO dates as injective printers with their inverses. JSON takes at most six bytes for
  // each character of a string, and 28 for the rest of a cursor document.
  datatype Formats = Formats(
    stringify: CursorDocument -> seq<Byte>, parse: seq<Byte> -> Parsed,
    iso: int -> string, parseIso: string -> Option<int>)

  ghost predicate Faithful(f: Formats) {
    && (forall c: CursorDocument | c.v == PAGINATION_VERSION ::
          f.parse(f.stringify(c)) == Parsed(c) && 0 < |f.stringify(c)| <= 28 + 6 * (|c.q| + |c.d| + |c.i|))
    && (forall t: int | -MAX_TIME <= t <= MAX_TIME :: f.parseIso(f.iso(t)) == Some(t) && |f.iso(t)| <= 27)
  }

  datatype Decoded = InvalidCursor | CursorQueryMismatch | Position(date: int, id: string)

  // The digest of the scope is 64 hexadecimal characters.
  function EncodeCursor(f: Formats, digest: string, date: int, id: string): string {
    Encode(f.stringify(CursorDocument(PAGINATION_VERSION, digest, f.iso(date), id)))
  }

  function DecodeCursor(f: Formats, digest: string, value: string): Decoded {
    if value == "" || |value| > MAX_CURSOR_LENGTH || !(forall i :: 0 <= i < |value| ==> IsBase64Url(value[i]))
    then InvalidCursor
    else
      var bytes := Decode(value);
      var parsed := f.parse(bytes);
      if Encode(bytes) != value || parsed.NotJson? then InvalidCursor
      else if parsed.OtherShape? then CursorQueryMismatch
      else
        var c := parsed.document;
        if c.v != PAGINATION_VERSION || c.q != digest || c.i == "" || |c.i| > 128 then CursorQueryMismatch
        else
          var date := f.parseIso(c.d);
          if date.None? || f.iso(date.value) != c.d then InvalidCursor else Position(date.value, c.i)
  }

  // Every issued cursor fits the length limit and decodes to its own position.
  lemma {:induction false} CursorRoundTrip(f: Formats, digest: string, date: int, id: string)
    requires Faithful(f) && |digest| == 64 && 0 < |id| <= 128 && -MAX_TIME <= date <= MAX_TIME
    ensures |EncodeCursor(f, digest, date, id)| <= MAX_CURSOR_LENGTH
    ensures DecodeCursor(f, digest, EncodeCursor(f, digest, date, id)) == Position(date, id)
  {
    var c := CursorDocument(PAGINATION_VERSION, digest, f.iso(date), id);
    assert f.parse(f.stringify(c)) == Parsed(c);
    assert f.parseIso(f.iso(date)) == Some(date);
    DecodeEncode(f.stringify(c));
    EncodedShape(f.stringify(c));
  }

  // A cursor is never accepted for another scope.
  lemma CursorBoundToScope(f: Formats, digest: string, other: string, date: int, id: string)
    requires Faithful(f) && |digest| == 64 && 0 < |id| <= 128 && -MAX_TIME <= date <= MAX_TIME && digest != other
    ensures DecodeCursor(f, other, EncodeCursor(f, digest, date, id)) == CursorQueryMismatch
  {
    CursorRoundTrip(f, digest, date, id);
    var c := CursorDocument(PAGINATION_VERSION, digest, f.iso(date), id);
    assert f.parse(f.stringify(c)) == Parsed(c);
    DecodeEncode(f.stringify(c));
  }

  // The bytes a value stands for, if it is a base64url text within the limit.
  ghost predicate StandsFor(value: string, bytes: seq<Byte>) {
    value == Encode(bytes) && 1 <= |value| <= 2048
  }

  // A document of this version and scope with an identifier of 1 to 128 characters.
  ghost predicate OfScope(parsed: Parsed, digest: string) {
    && parsed.Parsed?
    && parsed.document.v == 1 && parsed.document.q == digest && 1 <= |parsed.document.i| <= 128
  }

  ghost predicate Names(f: Formats, parsed: Parsed, digest: string, date: int, id: string) {
    && OfScope(parsed, digest) && parsed.document.i == id
    && f.parseIso(parsed.document.d) == Some(date) && f.iso(date) == parsed.document.d
  }

  // What a decoder answers, said without it: the position of a document of this scope with a canonical
  // date, a mismatch for other JSON, and an invalid cursor for everything else.
  lemma {:induction false} DecodeIff(f: Formats, digest: string, value: string, date: int, id: string)
    ensures var r := DecodeCursor(f, digest, value);
      && (r == Position(date, id) <==>
            exists bytes :: StandsFor(value, bytes) && Names(f, f.parse(bytes), digest, date, id))
      && (r == CursorQueryMismatch <==>
            exists bytes :: StandsFor(value, bytes) && !f.parse(bytes).NotJson? && !OfScope(f.parse(bytes), digest))
  {
    hide Encode, Decode, IsBase64Url;
    forall bytes | StandsFor(value, bytes)
      ensures Decode(value) == bytes && forall i :: 0 <= i < |value| ==> IsBase64Url(value[i])
    {
      DecodeEncode(bytes);
      EncodedShape(bytes);
    }
    if DecodeCursor(f, digest, value) != InvalidCursor {
      assert StandsFor(value, Decode(value));
    }
  }

  // An accepted cursor is the only text for its bytes: the base64url form is canonical.
  lemma AcceptedIsCanonical(f: Formats, digest: string, a: string, b: string)
    requires DecodeCursor(f, digest, a) != InvalidCursor && DecodeCursor(f, digest, b) != InvalidCursor
    ensures Decode(a) == Decode(b) <==> a == b
  {
  }
}
