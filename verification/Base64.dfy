/** Base64 as in section 4 of RFC 4648, decoded strictly: four-character quanta over the standard
    alphabet, padding only at the end. Unused low bits of a padded quantum are ignored. */
module Base64 {
  import opened Wire

  type Byte = b: int | 0 <= b < 256

  type Bytes = seq<Byte>

  type Sextet = x: int | 0 <= x < 64

  const PAD := '='

  function Letter(x: Sextet): char {
    if x < 26 then ('A' as int + x) as char
    else if x < 52 then ('a' as int + (x - 26)) as char
    else if x < 62 then ('0' as int + (x - 52)) as char
    else if x == 62 then '+'
    else '/'
  }

  predicate InAlphabet(c: char) {
    'A' <= c <= 'Z' || 'a' <= c <= 'z' || '0' <= c <= '9' || c == '+' || c == '/'
  }

  function Position(c: char): Sextet
    requires InAlphabet(c)
  {
    if 'A' <= c <= 'Z' then c as int - 'A' as int
    else if 'a' <= c <= 'z' then c as int - 'a' as int + 26
    else if '0' <= c <= '9' then c as int - '0' as int + 52
    else if c == '+' then 62
    else 63
  }

  lemma LetterPosition(x: Sextet)
    ensures InAlphabet(Letter(x)) && Position(Letter(x)) == x
  {
  }

  function EncodeQuantum(a: Byte, b: Byte, c: Byte): string {
    [Letter(a / 4), Letter(a % 4 * 16 + b / 16), Letter(b % 16 * 4 + c / 64), Letter(c % 64)]
  }

  /** `base64.b64encode`. */
  function Encode(bytes: Bytes): string {
    if bytes == [] then ""
    else if |bytes| == 1 then
      [Letter(bytes[0] / 4), Letter(bytes[0] % 4 * 16), PAD, PAD]
    else if |bytes| == 2 then
      [Letter(bytes[0] / 4), Letter(bytes[0] % 4 * 16 + bytes[1] / 16), Letter(bytes[1] % 16 * 4), PAD]
    else EncodeQuantum(bytes[0], bytes[1], bytes[2]) + Encode(bytes[3..])
  }

  /** The bytes of one quantum, or nothing when it is malformed. Padding is accepted only when
      `last` says that the text ends here. */
  function DecodeQuantum(p: char, q: char, r: char, s: char, last: bool): Option<Bytes> {
    if !InAlphabet(p) || !InAlphabet(q) then None
    else
      var first: Byte := Position(p) * 4 + Position(q) / 16;
      if InAlphabet(r) then
        var second: Byte := Position(q) % 16 * 16 + Position(r) / 4;
        if InAlphabet(s) then
          var third: Byte := Position(r) % 4 * 64 + Position(s);
          Some([first, second, third])
        else if s == PAD && last then Some([first, second])
        else None
      else if r == PAD && s == PAD && last then Some([first])
      else None
  }

  /** `base64.b64decode(text, validate=True)`; nothing stands for the `binascii.Error`. */
  function Decode(text: string): Option<Bytes> {
    if text == "" then Some([])
    else if |text| < 4 then None
    else
      match DecodeQuantum(text[0], text[1], text[2], text[3], |text| == 4)
      case None => None
      case Some(head) =>
        match Decode(text[4..])
        case None => None
        case Some(tail) => Some(head + tail)
  }

  lemma Regroup(a: Byte, b: Byte, c: Byte)
    ensures a / 4 * 4 + (a % 4 * 16 + b / 16) / 16 == a
    ensures (a % 4 * 16 + b / 16) % 16 * 16 + (b % 16 * 4 + c / 64) / 4 == b
    ensures (b % 16 * 4 + c / 64) % 4 * 64 + c % 64 == c
  {
  }

  lemma DecodeLetters(x: Sextet, y: Sextet, z: Sextet, w: Sextet, last: bool)
    ensures DecodeQuantum(Letter(x), Letter(y), Letter(z), Letter(w), last)
         == Some([x * 4 + y / 16, y % 16 * 16 + z / 4, z % 4 * 64 + w])
  {
    LetterPosition(x);
    LetterPosition(y);
    LetterPosition(z);
    LetterPosition(w);
  }

  lemma DecodesTo(x: Sextet, y: Sextet, z: Sextet, w: Sextet, a: Byte, b: Byte, c: Byte, last: bool)
    requires a == x * 4 + y / 16 && b == y % 16 * 16 + z / 4 && c == z % 4 * 64 + w
    ensures DecodeQuantum(Letter(x), Letter(y), Letter(z), Letter(w), last) == Some([a, b, c])
  {
    DecodeLetters(x, y, z, w, last);
  }

  lemma QuantumRoundTrip(a: Byte, b: Byte, c: Byte, last: bool)
    ensures var t := EncodeQuantum(a, b, c); DecodeQuantum(t[0], t[1], t[2], t[3], last) == Some([a, b, c])
  {
    Regroup(a, b, c);
    DecodesTo(a / 4, a % 4 * 16 + b / 16, b % 16 * 4 + c / 64, c % 64, a, b, c, last);
  }

  lemma OneByteRoundTrip(a: Byte)
    ensures DecodeQuantum(Letter(a / 4), Letter(a % 4 * 16), PAD, PAD, true) == Some([a])
  {
    Regroup(a, 0, 0);
    LetterPosition(a / 4);
    LetterPosition(a % 4 * 16);
  }

  lemma TwoByteRoundTrip(a: Byte, b: Byte)
    ensures DecodeQuantum(Letter(a / 4), Letter(a % 4 * 16 + b / 16), Letter(b % 16 * 4), PAD, true) == Some([a, b])
  {
    Regroup(a, b, 0);
    LetterPosition(a / 4);
    LetterPosition(a % 4 * 16 + b / 16);
    LetterPosition(b % 16 * 4);
  }

  lemma DecodeOneQuantum(text: string)
    requires |text| == 4
    ensures Decode(text) == DecodeQuantum(text[0], text[1], text[2], text[3], true)
  {
    assert text[4..] == "";
    match DecodeQuantum(text[0], text[1], text[2], text[3], true)
    case None =>
    case Some(head) => assert head + [] == head;
  }

  lemma OneByte(a: Byte)
    ensures Decode(Encode([a])) == Some([a])
  {
    OneByteRoundTrip(a);
    DecodeOneQuantum(Encode([a]));
  }

  lemma TwoBytes(a: Byte, b: Byte)
    ensures Decode(Encode([a, b])) == Some([a, b])
  {
    TwoByteRoundTrip(a, b);
    DecodeOneQuantum(Encode([a, b]));
  }

  lemma DecodeAfterQuantum(a: Byte, b: Byte, c: Byte, rest: string)
    requires Decode(rest).Some?
    ensures Decode(EncodeQuantum(a, b, c) + rest) == Some([a, b, c] + Decode(rest).value)
  {
    var text := EncodeQuantum(a, b, c) + rest;
    QuantumRoundTrip(a, b, c, |text| == 4);
    assert text[4..] == rest;
  }

  /** Decoding undoes encoding on every byte string. */
  lemma {:induction false} RoundTrip(bytes: Bytes)
    ensures Decode(Encode(bytes)) == Some(bytes)
  {
    if bytes == [] {
    } else if |bytes| == 1 {
      assert bytes == [bytes[0]];
      OneByte(bytes[0]);
    } else if |bytes| == 2 {
      assert bytes == [bytes[0], bytes[1]];
      TwoBytes(bytes[0], bytes[1]);
    } else {
      RoundTrip(bytes[3..]);
      DecodeAfterQuantum(bytes[0], bytes[1], bytes[2], Encode(bytes[3..]));
      assert bytes == [bytes[0], bytes[1], bytes[2]] + bytes[3..];
    }
  }

  /** An encoded text is made of alphabet characters and padding only, and starts with a letter. */
  lemma {:induction false} EncodedCharacters(bytes: Bytes)
    ensures forall i :: 0 <= i < |Encode(bytes)| ==> InAlphabet(Encode(bytes)[i]) || Encode(bytes)[i] == PAD
    ensures bytes != [] ==> Encode(bytes) != ""
  {
    if |bytes| >= 3 {
      EncodedCharacters(bytes[3..]);
    }
  }

  /** The four letters of a quantum denote the same 24-bit number as its three bytes. */
  lemma QuantumKeepsNumber(a: Byte, b: Byte, c: Byte)
    ensures var t := EncodeQuantum(a, b, c);
      && (forall i :: 0 <= i < 4 ==> InAlphabet(t[i]))
      && Position(t[0]) * 262144 + Position(t[1]) * 4096 + Position(t[2]) * 64 + Position(t[3]) == a * 65536 + b * 256 + c
  {
    LetterPosition(a / 4);
    LetterPosition(a % 4 * 16 + b / 16);
    LetterPosition(b % 16 * 4 + c / 64);
    LetterPosition(c % 64);
  }

  /** The letters of a last, shorter quantum denote its bytes, shifted up by the bits left over. */
  lemma TailsKeepNumbers(a: Byte, b: Byte)
    ensures var t := Encode([a]);
      && |t| == 4 && InAlphabet(t[0]) && InAlphabet(t[1]) && t[2] == t[3] == '='
      && Position(t[0]) * 64 + Position(t[1]) == a * 16
    ensures var t := Encode([a, b]);
      && |t| == 4 && InAlphabet(t[0]) && InAlphabet(t[1]) && InAlphabet(t[2]) && t[3] == '='
      && Position(t[0]) * 4096 + Position(t[1]) * 64 + Position(t[2]) == (a * 256 + b) * 4
  {
    LetterPosition(a / 4);
    LetterPosition(a % 4 * 16);
    LetterPosition(a % 4 * 16 + b / 16);
    LetterPosition(b % 16 * 4);
  }

  /** The standard alphabet: capitals, small letters, digits, `+` and `/`, in this order. */
  lemma AlphabetInOrder(k: nat)
    ensures k < 26 ==> InAlphabet('A' + k as char) && Position('A' + k as char) == k
    ensures k < 26 ==> InAlphabet('a' + k as char) && Position('a' + k as char) == 26 + k
    ensures k < 10 ==> InAlphabet('0' + k as char) && Position('0' + k as char) == 52 + k
    ensures InAlphabet('+') && Position('+') == 62 && InAlphabet('/') && Position('/') == 63
    ensures !InAlphabet('-') && !InAlphabet('_') && !InAlphabet('=')
  {
  }

  /** Whole quanta of alphabet characters, of which the last may end in one or two pads. */
  predicate WellFormed(text: string) {
    var n := |text|;
    && n % 4 == 0
    && (forall i :: 0 <= i < n - 2 ==> InAlphabet(text[i]))
    && (n > 0 ==> InAlphabet(text[n - 1]) || text[n - 1] == PAD)
    && (n > 0 ==> InAlphabet(text[n - 2]) || (text[n - 2] == PAD && text[n - 1] == PAD))
  }

  /** Strictness: exactly the well-formed texts decode, so one character out of place anywhere makes
      decoding fail. */
  lemma {:induction false} DecodesIffWellFormed(text: string)
    ensures Decode(text).Some? <==> WellFormed(text)
  {
    if |text| == 4 {
      DecodeOneQuantum(text);
    } else if |text| > 4 {
      DecodesIffWellFormed(text[4..]);
      WellFormedTail(text);
    }
  }

  lemma WellFormedTail(text: string)
    requires |text| > 4
    ensures WellFormed(text) <==> (forall i :: 0 <= i < 4 ==> InAlphabet(text[i])) && WellFormed(text[4..])
  {
    var tail := text[4..];
    assert forall i :: 4 <= i < |text| ==> text[i] == tail[i - 4];
  }
}
