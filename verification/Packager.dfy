/** The single-message image format of the MFPackager: a ten-byte header with the decimal size and a comma,
    then the image. */
module Packager {
  import opened Bytes

  const HEADER: nat := 10

  /** sprintf of "size," and its NUL at the start of the buffer, then memcpy of the image behind the header. */
  function Packed(tmp: Bytes, image: Bytes): Bytes
    requires |tmp| == |image| + HEADER && |image| < INT_LIMIT
  {
    SizeFits(|image|);
    Overwrite(Overwrite(tmp, 0, Digits(|image|) + [COMMA, NUL]), HEADER, image)
  }

  lemma SizeFits(n: nat)
    requires n < INT_LIMIT
    ensures |Digits(n)| <= 10 && |Digits(n)| + 2 <= n + HEADER
  {
    DigitsLength(n, 10);
    DigitsLength(n, 1);
    Pow10Values();
    if |Digits(n)| > 1 { assert Pow10(1) == 10 * Pow10(0); }
  }

  method SendImage(buf: array<byte>, bufSize: nat, tmp: array<byte>)
    requires bufSize <= buf.Length && bufSize < INT_LIMIT && tmp.Length == bufSize + HEADER && buf != tmp
    modifies tmp
    ensures tmp[..] == Packed(old(tmp[..]), buf[..bufSize])
    ensures tmp[10..] == buf[..bufSize]
    ensures var n := |Digits(bufSize)|;
            && n <= 10 && tmp[..n] == Digits(bufSize) && (n < 10 ==> tmp[n] == 44) && (n < 9 ==> tmp[n + 1] == 0)
            && forall i :: n + 2 <= i < 10 ==> tmp[i] == old(tmp[i])
  {
    SizeFits(bufSize);
    var text := Digits(bufSize) + [COMMA, NUL];
    forall i | 0 <= i < |text| { tmp[i] := text[i]; }
    forall i | 0 <= i < bufSize { tmp[HEADER + i] := buf[i]; }
  }

  /** strtok on blanks and commas, atoi, memcpy. None when there is no token, or the size is negative, or the
      image would end outside the message buffer or the caller's. */
  function Unpacked(tmp: Bytes): Option<Bytes> {
    match Strtok(tmp, 0, {SPACE, COMMA})
    case None => None
    case Some(t) =>
      var size := Strtol(tmp[t.start..t.end]);
      if 0 <= size && HEADER + size <= |tmp| then Some(tmp[t.end := NUL][HEADER..HEADER + size]) else None
  }

  method RecvImage(tmp: array<byte>, buf: array<byte>) returns (imgSize: nat)
    requires Unpacked(tmp[..]).Some? && |Unpacked(tmp[..]).value| <= buf.Length && buf != tmp
    modifies tmp, buf
    ensures imgSize == |Unpacked(old(tmp[..])).value|
    ensures forall t :: IsNextToken(old(tmp[..]), 0, t, {32, 44}) ==>
      && imgSize == Strtol(old(tmp[..])[t.start..t.end])
      && forall i :: 0 <= i < buf.Length ==>
           buf[i] == if i >= imgSize then old(buf[i]) else if 10 + i == t.end then 0 else old(tmp[..])[10 + i]
    ensures buf[..] == Overwrite(old(buf[..]), 0, Unpacked(old(tmp[..])).value)
  {
    var token := Strtok(tmp[..], 0, {SPACE, COMMA}).value;
    ghost var message := tmp[..];
    imgSize := Strtol(tmp[token.start..token.end]);
    assert message[token.start..token.end] == tmp[token.start..token.end];
    tmp[token.end] := NUL;
    assert tmp[..] == message[token.end := NUL];
    forall i | 0 <= i < imgSize { buf[i] := tmp[HEADER + i]; }
    forall t | IsNextToken(message, 0, t, {32, 44}) ensures t == token { StrtokIff(message, 0, t, {32, 44}); }
  }

  /** The header holds the size and its comma exactly when the size has at most nine digits: with ten, the first
      byte of the image takes the comma's place. */
  lemma CommaSurvivesIff(tmp: Bytes, image: Bytes)
    requires |tmp| == |image| + HEADER && |image| < INT_LIMIT
    ensures |Digits(|image|)| < |Packed(tmp, image)|
    ensures Packed(tmp, image)[|Digits(|image|)|] == COMMA <==> |image| < NINE_DIGITS || image[0] == COMMA
  {
    SizeFits(|image|);
    NineDigits(|image|);
    var k := |Digits(|image|)|;
    if k < HEADER {
      assert (Digits(|image|) + [COMMA, NUL])[k] == COMMA;
      assert Packed(tmp, image)[k] == COMMA;
    } else {
      assert Packed(tmp, image)[k] == image[0];
    }
  }

  /** recvImage returns the size and the bytes that sendImage was given, whatever else is in the receive buffer. */
  lemma ImageRoundTrip(tmp: Bytes, image: Bytes, junk: Bytes)
    requires |tmp| == |image| + HEADER && |image| < NINE_DIGITS
    ensures Unpacked(Packed(tmp, image) + junk) == Some(image)
  {
    var n := |image|;
    SizeFits(n);
    NineDigits(n);
    var buf := Packed(tmp, image) + junk;
    var digits := Digits(n);
    assert buf[0..0 + |digits|] == digits;
    assert buf[|digits|] == COMMA;
    StrtokFindsWord(buf, 0, digits, {SPACE, COMMA});
    StrtolOfNumeral(n, []);
    assert digits + [] == digits;
    assert buf[|digits| := NUL][HEADER..HEADER + n] == image;
  }
}
