/** The wire format of the message distributor: how the C++ and the Java side build and read frames. */
module Codec {
  import opened Bytes

  datatype Frame =
    | Create
    | Accepted(id: int)
    | Sock(id: int, payload: Bytes)
    | Close(id: int)

  /** What a listener makes of a message. Undefined: the C++ code follows a null pointer or leaves its
      buffer or its int range; the Java code throws (or leaves the range where both sides agree). */
  datatype Decoded = Good(frame: Frame) | Unknown | Undefined

  const HEADER_SIZE: nat := 1024  // BUFFER_SIZE of the control frames
  const MAX_CHUNK: nat := 50_000  // size of the receive buffer

  // "create", "accepted", "sock", "close"
  const CREATE: Bytes := [99, 114, 101, 97, 116, 101]
  const ACCEPTED: Bytes := [97, 99, 99, 101, 112, 116, 101, 100]
  const SOCK: Bytes := [115, 111, 99, 107]
  const CLOSE: Bytes := [99, 108, 111, 115, 101]

  // ---- building ----

  /** "sock,<id>,<payload>" */
  function SockFrame(id: nat, payload: Bytes): Bytes {
    SOCK + [COMMA] + Digits(id) + [COMMA] + payload
  }

  /** A control frame: the text, the NUL that sprintf adds, and whatever the 1024-byte buffer held before. */
  function Control(text: Bytes, buffer: Bytes): Bytes
    requires |text| < |buffer| == HEADER_SIZE
  {
    Overwrite(buffer, 0, text + [NUL])
  }

  function IdText(word: Bytes, id: nat): Bytes { word + [COMMA] + Digits(id) }

  function CppCreate(buffer: Bytes): Bytes
    requires |buffer| == HEADER_SIZE
  { Control(CREATE, buffer) }

  function CppAccepted(id: nat, buffer: Bytes): Bytes
    requires id < NINE_DIGITS && |buffer| == HEADER_SIZE
  { NineDigits(id); Control(IdText(ACCEPTED, id) + [COMMA], buffer) }

  function CppClose(id: nat, buffer: Bytes): Bytes
    requires id < NINE_DIGITS && |buffer| == HEADER_SIZE
  { NineDigits(id); Control(IdText(CLOSE, id) + [COMMA], buffer) }

  function JavaCreate(): Bytes { Control(CREATE, Zeros(HEADER_SIZE)) }

  function JavaAccepted(id: nat): Bytes
    requires id < NINE_DIGITS
  { NineDigits(id); Control(IdText(ACCEPTED, id), Zeros(HEADER_SIZE)) }

  function JavaClose(id: nat): Bytes
    requires id < NINE_DIGITS
  { NineDigits(id); Control(IdText(CLOSE, id), Zeros(HEADER_SIZE)) }

  // ---- reading, C++ ----

  function IdLen(id: int): nat { |Digits(Abs(id))| }

  /** strtok(NULL, ",") followed by strtol into an int. */
  function IdToken(buf: Bytes, from: nat): Option<(Token, int)> {
    match Strtok(buf, from, {COMMA})
    case None => None
    case Some(t) =>
      var id := Strtol(buf[t.start..t.end]);
      if -INT_LIMIT <= id < INT_LIMIT then Some((t, id)) else None
  }

  /** `buf` is the whole receive buffer: the message of `ret` bytes and then whatever the stack held.
      strtok puts a NUL over each delimiter that it stops at. */
  function DecodeCpp(buf: Bytes, ret: nat): Decoded {
    match Strtok(buf, 0, {COMMA})
    case None => Undefined
    case Some(h) =>
      var word := buf[h.start..h.end];
      var cut := buf[h.end := NUL];
      if word == CREATE then Good(Create)
      else if word !in {ACCEPTED, SOCK, CLOSE} then Unknown
      else match IdToken(cut, h.next)
        case None => Undefined
        case Some((t, id)) =>
          if word == ACCEPTED then Good(Accepted(id))
          else if word == CLOSE then Good(Close(id))
          else Content(cut[t.end := NUL], t.start, id, ret)
  }

  /** The payload, found from the printed length of the id. */
  function Content(buf: Bytes, idStart: nat, id: int, ret: nat): Decoded {
    var start := idStart + IdLen(id) + 1;
    var len := ret as int - IdLen(id) - 6;
    if Abs(id) < NINE_DIGITS && 0 <= len && start + len <= |buf| then Good(Sock(id, buf[start..start + len]))
    else Undefined
  }

  // ---- reading, Java ----

  function FirstComma(s: Bytes, i: nat): (c: nat)
    requires i <= |s|
    ensures i <= c <= |s|
    decreases |s| - i
  {
    if i < |s| && s[i] != COMMA then FirstComma(s, i + 1) else i
  }

  /** `buf` is the zero-filled Java buffer; split("[,]") yields the header and the id. */
  function DecodeJava(buf: Bytes, ret: nat): Decoded {
    var c := FirstComma(buf, 0);
    var word := buf[..c];
    if word == CREATE then Good(Create)
    else if word !in {ACCEPTED, SOCK, CLOSE} then Unknown
    else if c == |buf| then Undefined
    else match ParseInt(buf[c + 1..FirstComma(buf, c + 1)])
      case None => Undefined
      case Some(id) =>
        if !(-INT_LIMIT <= id < INT_LIMIT) then Undefined
        else if word == ACCEPTED then Good(Accepted(id))
        else if word == CLOSE then Good(Close(id))
        else if Abs(id) >= NINE_DIGITS || !(IdLen(id) + 6 <= ret <= |buf|) then Undefined
        else Good(Sock(id, buf[IdLen(id) + 6..ret]))
  }

  /** The id of a data frame, as far as Java reads it before it looks the socket up. */
  function JavaSockId(buf: Bytes): Option<int> {
    var c := FirstComma(buf, 0);
    if buf[..c] != SOCK || c == |buf| then None
    else match ParseInt(buf[c + 1..FirstComma(buf, c + 1)])
      case Some(id) => if -INT_LIMIT <= id < INT_LIMIT then Some(id) else None
      case None => None
  }

  lemma SockIdIsDecoded(buf: Bytes, ret: nat)
    ensures var d := DecodeJava(buf, ret);
            d.Good? && d.frame.Sock? <==> d != Undefined && JavaSockId(buf).Some?
    ensures var d := DecodeJava(buf, ret);
            d.Good? && d.frame.Sock? ==> JavaSockId(buf) == Some(d.frame.id)
  {}

  // ---- the formats spelled out ----

  predicate Spells(b: Bytes, text: string) {
    |b| == |text| && forall i :: 0 <= i < |b| ==> b[i] as int as char == text[i]
  }

  predicate IsKnown(word: Bytes) {
    Spells(word, "create") || Spells(word, "accepted") || Spells(word, "sock") || Spells(word, "close")
  }

  ghost predicate NoToken(buf: Bytes, from: nat) { forall t :: !IsNextToken(buf, from, t, {44}) }

  lemma WordsSpelled(b: Bytes)
    ensures Spells(b, "create") <==> b == CREATE
    ensures Spells(b, "accepted") <==> b == ACCEPTED
    ensures Spells(b, "sock") <==> b == SOCK
    ensures Spells(b, "close") <==> b == CLOSE
  {}

  /** A control frame of 1024 bytes: a text, the id, what ends it, and the rest of the buffer. */
  lemma ControlLayout(word: Bytes, id: nat, comma: Bytes, buffer: Bytes)
    requires |buffer| == 1024 && |IdText(word, id) + comma| < 1024 && comma in {[], [44]}
    ensures var m, w, e := Control(IdText(word, id) + comma, buffer), |word|, |word| + 1 + |Digits(id)|;
            && |m| == 1024 && m[..w] == word && m[w] == 44 && m[w + 1..e] == Digits(id)
            && m[e..e + |comma|] == comma && m[e + |comma|] == 0 && m[e + |comma| + 1..] == buffer[e + |comma| + 1..]
  {
    var text := IdText(word, id) + comma;
    var m, w, e := Control(text, buffer), |word|, |word| + 1 + |Digits(id)|;
    assert m[..|text|] == text;
    assert text[..w] == word && text[w] == 44 && text[w + 1..e] == Digits(id) && text[e..] == comma;
    assert m[..w] == m[..|text|][..w] && m[w + 1..e] == m[..|text|][w + 1..e];
    assert m[e..e + |comma|] == m[..|text|][e..];
  }

  /** "create", NUL */
  lemma CreateSpelled(buffer: Bytes)
    requires |buffer| == 1024
    ensures |CppCreate(buffer)| == |JavaCreate()| == 1024
    ensures var m := CppCreate(buffer); Spells(m[..6], "create") && m[6] == 0 && m[7..] == buffer[7..]
    ensures Spells(JavaCreate()[..6], "create") && forall i :: 6 <= i < 1024 ==> JavaCreate()[i] == 0
  {
    assert CppCreate(buffer)[..6] == CREATE && JavaCreate()[..6] == CREATE;
    WordsSpelled(CREATE);
  }

  /** "accepted,<id>," and "close,<id>,", NUL */
  lemma CppFramesSpelled(id: nat, buffer: Bytes)
    requires id < NINE_DIGITS && |buffer| == 1024
    ensures var m, e := CppAccepted(id, buffer), 9 + |Digits(id)|;
            && |m| == 1024 && e < 1022 && Spells(m[..8], "accepted") && m[8] == 44 && m[9..e] == Digits(id)
            && m[e] == 44 && m[e + 1] == 0 && m[e + 2..] == buffer[e + 2..]
    ensures var m, e := CppClose(id, buffer), 6 + |Digits(id)|;
            && |m| == 1024 && e < 1022 && Spells(m[..5], "close") && m[5] == 44 && m[6..e] == Digits(id)
            && m[e] == 44 && m[e + 1] == 0 && m[e + 2..] == buffer[e + 2..]
  {
    NineDigits(id);
    ControlLayout(ACCEPTED, id, [44], buffer);
    ControlLayout(CLOSE, id, [44], buffer);
    WordsSpelled(ACCEPTED);
    WordsSpelled(CLOSE);
    var m, e := CppAccepted(id, buffer), 9 + |Digits(id)|;
    assert m[e] == m[e..e + 1][0];
    var c, f := CppClose(id, buffer), 6 + |Digits(id)|;
    assert c[f] == c[f..f + 1][0];
    hide Control, Digits;
  }

  /** "accepted,<id>" and "close,<id>" and nothing but zeros */
  lemma JavaFramesSpelled(id: nat)
    requires id < NINE_DIGITS
    ensures var m, e := JavaAccepted(id), 9 + |Digits(id)|;
            && |m| == 1024 && e < 1023 && Spells(m[..8], "accepted") && m[8] == 44 && m[9..e] == Digits(id)
            && forall i :: e <= i < 1024 ==> m[i] == 0
    ensures var m, e := JavaClose(id), 6 + |Digits(id)|;
            && |m| == 1024 && e < 1023 && Spells(m[..5], "close") && m[5] == 44 && m[6..e] == Digits(id)
            && forall i :: e <= i < 1024 ==> m[i] == 0
  {
    NineDigits(id);
    ControlLayout(ACCEPTED, id, [], Zeros(1024));
    ControlLayout(CLOSE, id, [], Zeros(1024));
    WordsSpelled(ACCEPTED);
    WordsSpelled(CLOSE);
    assert IdText(ACCEPTED, id) + [] == IdText(ACCEPTED, id) && IdText(CLOSE, id) + [] == IdText(CLOSE, id);
  }

  /** listen in C++ on any message in which strtok finds a first token h. */
  lemma FirstTokenDecides(buf: Bytes, ret: nat, h: Token)
    requires IsNextToken(buf, 0, h, {44})
    ensures var word := buf[h.start..h.end];
            && (Spells(word, "create") <==> DecodeCpp(buf, ret) == Good(Create))
            && (IsKnown(word) <==> DecodeCpp(buf, ret) != Unknown)
  {
    StrtokIff(buf, 0, h, {44});
    WordsSpelled(buf[h.start..h.end]);
    hide Strtok, Spells;
  }

  /** ... and behind it, once its end is overwritten with a NUL, a second one t: the id. */
  lemma SecondTokenIsId(buf: Bytes, ret: nat, h: Token, t: Token)
    requires IsNextToken(buf, 0, h, {44}) && IsNextToken(buf[h.end := 0], h.next, t, {44})
    ensures var word, cut, d := buf[h.start..h.end], buf[h.end := 0][t.end := 0], DecodeCpp(buf, ret);
            var id := Strtol(buf[h.end := 0][t.start..t.end]);
            var start, len := t.start + |Digits(Abs(id))| + 1, ret as int - |Digits(Abs(id))| - 6;
            && (Spells(word, "accepted") ==> d == if FitsInt(id) then Good(Accepted(id)) else Undefined)
            && (Spells(word, "close") ==> d == if FitsInt(id) then Good(Close(id)) else Undefined)
            && (Spells(word, "sock") ==>
                  if FitsInt(id) && Abs(id) < NINE_DIGITS && 0 <= len && start + len <= |buf|
                  then d == Good(Sock(id, cut[start..start + len])) else d == Undefined)
  {
    StrtokIff(buf, 0, h, {44});
    StrtokIff(buf[h.end := 0], h.next, t, {44});
    WordsSpelled(buf[h.start..h.end]);
    hide Strtok, Strtol, Digits, Spells;
  }

  predicate FitsInt(n: int) { -0x8000_0000 <= n < 0x8000_0000 }

  /** Without a first token, or without a second one behind "accepted", "sock" or "close", the code follows a null
      pointer. */
  lemma TokensMissing(buf: Bytes, ret: nat, h: Token)
    ensures NoToken(buf, 0) ==> DecodeCpp(buf, ret) == Undefined
    ensures IsNextToken(buf, 0, h, {44}) && NoToken(buf[h.end := 0], h.next) ==>
      DecodeCpp(buf, ret) in {Good(Create), Unknown, Undefined}
  {
    var first := Strtok(buf, 0, {44});
    if first.Some? { StrtokIff(buf, 0, first.value, {44}); }
    StrtokIff(buf, 0, h, {44});
    if IsNextToken(buf, 0, h, {44}) {
      var cut := buf[h.end := 0];
      var second := Strtok(cut, h.next, {44});
      if second.Some? { StrtokIff(cut, h.next, second.value, {44}); }
    }
    hide Strtok, Strtol, IsNextToken;
  }

  /** listen in Java: the text before the first comma decides, and the text before the second is the id. */
  lemma JavaDecodes(word: Bytes, text: Bytes, more: Bytes, ret: nat)
    requires 44 !in word && 44 !in text && (more == [] || more[0] == 44)
    ensures var buf := word + [44] + text + more;
            var d, n := DecodeJava(buf, ret), ParseInt(text);
            && (Spells(word, "create") <==> d == Good(Create))
            && (IsKnown(word) <==> d != Unknown)
            && (Spells(word, "accepted") ==>
                  d == if n.Some? && FitsInt(n.value) then Good(Accepted(n.value)) else Undefined)
            && (Spells(word, "close") ==> d == if n.Some? && FitsInt(n.value) then Good(Close(n.value)) else Undefined)
            && (Spells(word, "sock") ==>
                  if n.Some? && FitsInt(n.value) && Abs(n.value) < NINE_DIGITS
                     && |Digits(Abs(n.value))| + 6 <= ret <= |buf|
                  then d == Good(Sock(n.value, buf[|Digits(Abs(n.value))| + 6..ret])) else d == Undefined)
            && JavaSockId(buf) == if Spells(word, "sock") && n.Some? && FitsInt(n.value) then n else None
  {
    var buf := word + [44] + text + more;
    SplitAtComma(buf, word, text + more);
    var e := |word| + 1 + |text|;
    assert buf[|word| + 1..e] == text;
    forall k | |word| + 1 <= k < e ensures buf[k] != 44 { assert buf[k] == text[k - |word| - 1]; }
    if more == [] { FirstCommaBeyond(buf, |word| + 1, e); } else { FirstCommaAt(buf, |word| + 1, e); }
    WordsSpelled(word);
    hide FirstComma, ParseInt, Digits, Spells;
  }

  /** Without a comma only "create" is known. */
  lemma JavaDecodesWord(word: Bytes, ret: nat)
    requires 44 !in word
    ensures var d := DecodeJava(word, ret);
            if Spells(word, "create") then d == Good(Create)
            else if Spells(word, "accepted") || Spells(word, "sock") || Spells(word, "close") then d == Undefined
            else d == Unknown
  {
    FirstCommaBeyond(word, 0, |word|);
    assert word[..|word|] == word;
    WordsSpelled(word);
    hide FirstComma, ParseInt, Spells;
  }

  // ---- the loops of the source ----

  /** Integer division as C and Java do it: toward zero. */
  function TruncDiv(n: int, d: nat): int
    requires d > 0
  {
    if n < 0 then -((-n) / d) else n / d
  }

  /** The divisor loop of listen and send: it finds the printed length, and never leaves 32 bits. */
  method IdLength(id: int) returns (length: nat)
    requires Abs(id) < NINE_DIGITS
    ensures length == IdLen(id)
  {
    var divisor: nat;
    length, divisor := 1, 10;
    assert Pow10(1) == 10 * Pow10(0);
    assert NotLonger(id, 0);
    while TruncDiv(id, divisor) != 0
      invariant 1 <= length <= 9
      invariant divisor == Pow10(length) < INT_LIMIT
      invariant NotLonger(id, length - 1)
      decreases 9 - length
    {
      assert divisor <= Abs(id) by { QuotientZero(Abs(id), divisor); }
      DigitsLength(Abs(id), length);
      NineDigits(Abs(id));
      Pow10Monotone(length + 1, 9);
      Pow10Values();
      divisor := divisor * 10;
      length := length + 1;
    }
    QuotientZero(Abs(id), divisor);
    DigitsLength(Abs(id), length);
  }

  ghost predicate NotLonger(id: int, k: nat) { IdLen(id) > k }

  lemma QuotientZero(n: nat, d: nat)
    requires d > 0
    ensures n / d == 0 <==> n < d
  {
    if n < d { assert n == 0 * d + n; }
  }

  /** listen in C++, up to what it does with the frame: strtok cuts the buffer in place. */
  method ReadFrame(buffer: array<byte>, ret: nat) returns (d: Decoded)
    requires ret <= buffer.Length && DecodeCpp(buffer[..], ret) != Undefined
    modifies buffer
    ensures d == DecodeCpp(old(buffer[..]), ret)
  {
    ghost var before := buffer[..];
    var head := Strtok(buffer[..], 0, {COMMA}).value;
    var newMessage := buffer[head.start..head.end];
    buffer[head.end] := NUL;
    if newMessage == CREATE {
      return Good(Create);
    }
    if newMessage != ACCEPTED && newMessage != SOCK && newMessage != CLOSE {
      return Unknown;
    }
    assert buffer[..] == before[head.end := NUL];
    var (token, id) := IdToken(buffer[..], head.next).value;
    buffer[token.end] := NUL;
    if newMessage == ACCEPTED {
      return Good(Accepted(id));
    }
    if newMessage == CLOSE {
      return Good(Close(id));
    }
    assert buffer[..] == before[head.end := NUL][token.end := NUL];
    d := ReadContent(buffer, token.start, id, ret);
  }

  method ReadContent(buffer: array<byte>, idStart: nat, id: int, ret: nat) returns (d: Decoded)
    requires Content(buffer[..], idStart, id, ret) != Undefined
    ensures d == Content(buffer[..], idStart, id, ret)
  {
    var idLength := IdLength(id);
    var start, contentLength := idStart + idLength + 1, ret - idLength - 6;
    assert buffer[start..start + contentLength] == buffer[..][start..start + contentLength];
    return Good(Sock(id, buffer[start..start + contentLength]));
  }

  /** listen in Java, up to what it does with the frame. */
  method ReadFrameJava(buf: array<byte>, ret: nat) returns (d: Decoded)
    requires ret <= buf.Length && DecodeJava(buf[..], ret) != Undefined
    ensures d == DecodeJava(buf[..], ret)
  {
    var comma := FirstComma(buf[..], 0);
    var word := buf[..][..comma];
    if word == CREATE {
      return Good(Create);
    }
    if word != ACCEPTED && word != SOCK && word != CLOSE {
      return Unknown;
    }
    var id := ParseInt(buf[..][comma + 1..FirstComma(buf[..], comma + 1)]).value;
    if word == ACCEPTED {
      return Good(Accepted(id));
    }
    if word == CLOSE {
      return Good(Close(id));
    }
    var idLen := IdLength(id);
    var content := CopyContent(buf, idLen, ret);
    assert buf[..][idLen + 6..ret] == buf[idLen + 6..ret];
    return Good(Sock(id, content[..]));
  }

  /** The copy loop of Java's listen. */
  method CopyContent(buf: array<byte>, idLen: nat, ret: nat) returns (content: array<byte>)
    requires idLen + 6 <= ret <= buf.Length
    ensures fresh(content) && content[..] == buf[idLen + 6..ret]
  {
    var contentStart := idLen + 6;
    content := new byte[ret - idLen - 6];
    for i := contentStart to ret
      invariant forall k :: contentStart <= k < i ==> content[k - contentStart] == buf[k]
    {
      content[i - contentStart] := buf[i];
    }
    assert forall k :: 0 <= k < content.Length ==> content[k] == buf[k + contentStart];
  }

  lemma SockLayout(id: nat, payload: Bytes)
    ensures var m, e := SockFrame(id, payload), 5 + |Digits(id)|;
            && |m| == e + 1 + |payload| && Spells(m[..5], "sock,") && m[5..e] == Digits(id)
            && m[e] == 44 && m[e + 1..] == payload
  {
    assert SockFrame(id, payload)[..5] == SOCK + [COMMA];
  }

  /** send in C++: sprintf of the header into a buffer of the final size, then memcpy over its NUL.
      An empty payload would leave no room for that NUL. */
  method BuildSock(sock: int, buffer: array<byte>, size: nat) returns (content: array<byte>)
    requires 0 <= sock < NINE_DIGITS && 0 < size <= buffer.Length
    ensures fresh(content) && content[..] == SockFrame(sock, buffer[..size])
    ensures var e := 5 + |Digits(sock)|;
            && content.Length == e + 1 + size && Spells(content[..5], "sock,") && content[5..e] == Digits(sock)
            && content[e] == 44 && content[e + 1..] == buffer[..size]
  {
    var idLength := IdLength(sock);
    SockLayout(sock, buffer[..size]);
    content := new byte[size + idLength + 6];
    var text := SOCK + [COMMA] + Digits(sock) + [COMMA] + [NUL];
    forall i | 0 <= i < |text| { content[i] := text[i]; }
    forall i | 0 <= i < size { content[6 + idLength + i] := buffer[i]; }
    assert content[..6 + idLength] == SOCK + [COMMA] + Digits(sock) + [COMMA];
  }

  /** send in Java: the same frame, copied byte by byte. */
  method BuildSockJava(sockID: int, buf: array<byte>, size: nat) returns (content: array<byte>)
    requires 0 <= sockID < NINE_DIGITS && size <= buf.Length
    ensures fresh(content) && content[..] == SockFrame(sockID, buf[..size])
    ensures var e := 5 + |Digits(sockID)|;
            && content.Length == e + 1 + size && Spells(content[..5], "sock,") && content[5..e] == Digits(sockID)
            && content[e] == 44 && content[e + 1..] == buf[..size]
  {
    var idLen := IdLength(sockID);
    content := new byte[size + idLen + 6];
    var header := SOCK + [COMMA] + Digits(sockID) + [COMMA];
    SockLayout(sockID, buf[..size]);
    for i := 0 to |header|
      invariant content[..i] == header[..i]
    {
      content[i] := header[i];
    }
    assert content[..|header|] == header;
    for i := 0 to size
      invariant content[..|header|] == header
      invariant content[|header|..|header| + i] == buf[..i]
    {
      content[i + 6 + idLen] := buf[i];
    }
    assert content[..] == content[..|header|] + content[|header|..|header| + size];
  }

  // ---- what each reader makes of each frame ----

  /** The head "word,<id>" and one byte that ends it, read by strtok and strtol. */
  lemma CppReadsHead(buf: Bytes, word: Bytes, id: nat)
    requires IsWord(word) && id < NINE_DIGITS
    requires |IdText(word, id)| < |buf| && IdText(word, id) == buf[..|IdText(word, id)|]
    requires buf[|IdText(word, id)|] in {COMMA, NUL}
    ensures Strtok(buf, 0, {COMMA}) == Some(Token(0, |word|, |word| + 1))
    ensures var e := |IdText(word, id)|;
            IdToken(buf[|word| := NUL], |word| + 1)
              == Some((Token(|word| + 1, e, if buf[e] == NUL then e else e + 1), id))
  {
    var w, e := |word|, |IdText(word, id)|;
    assert buf[..w] == IdText(word, id)[..w] == word;
    assert buf[w] == IdText(word, id)[w] == COMMA;
    var cut := buf[w := NUL];
    assert cut[w + 1..e] == IdText(word, id)[w + 1..] == Digits(id);
    CppReadsId(cut, w + 1, id);
    StrtokFindsWord(buf, 0, word, {COMMA});
  }

  predicate IsWord(word: Bytes) { word != [] && COMMA !in word && NUL !in word }

  lemma CppReadsId(cut: Bytes, from: nat, id: nat)
    requires id < NINE_DIGITS
    requires var e := from + |Digits(id)|; e < |cut| && cut[from..e] == Digits(id) && cut[e] in {COMMA, NUL}
    ensures var e := from + |Digits(id)|;
            IdToken(cut, from) == Some((Token(from, e, if cut[e] == NUL then e else e + 1), id))
  {
    StrtokFindsWord(cut, from, Digits(id), {COMMA});
    StrtolOfNumeral(id, []);
    assert Digits(id) + [] == Digits(id);
  }

  /** `listen` recovers exactly what `send` framed, with any bytes in the payload and any bytes left
      in the receive buffer behind the message. */
  lemma CppSockRoundTrip(id: nat, payload: Bytes, junk: Bytes)
    requires id < NINE_DIGITS
    ensures DecodeCpp(SockFrame(id, payload) + junk, |SockFrame(id, payload)|) == Good(Sock(id, payload))
  {
    var m := SockFrame(id, payload);
    var buf := m + junk;
    var e := |IdText(SOCK, id)|;
    assert buf == IdText(SOCK, id) + [COMMA] + (payload + junk);
    assert buf[..e] == IdText(SOCK, id);
    CppReadsHead(buf, SOCK, id);
    assert buf[0..4] == SOCK;
    assert buf[4 := NUL][e := NUL][e + 1..|m|] == payload;
  }

  /** `accepted` and `close` frames of either side, with or without the closing comma. */
  lemma CppControlRoundTrip(word: Bytes, id: nat, comma: Bytes, buffer: Bytes, junk: Bytes)
    requires word in {ACCEPTED, CLOSE} && id < NINE_DIGITS && comma in {[], [COMMA]}
    requires |buffer| == HEADER_SIZE && |IdText(word, id) + comma| < HEADER_SIZE
    ensures var m := Control(IdText(word, id) + comma, buffer);
            DecodeCpp(m + junk, HEADER_SIZE) == Good(if word == ACCEPTED then Accepted(id) else Close(id))
  {
    var m := Control(IdText(word, id) + comma, buffer);
    var buf := m + junk;
    var e := |IdText(word, id)|;
    assert buf[..e] == IdText(word, id);
    assert buf[e] in {COMMA, NUL};
    CppReadsHead(buf, word, id);
    assert buf[..|word|] == word;
  }

  lemma CppCreateRoundTrip(buffer: Bytes, junk: Bytes)
    requires |buffer| == HEADER_SIZE
    ensures DecodeCpp(CppCreate(buffer) + junk, HEADER_SIZE) == Good(Create)
  {
    var buf := CppCreate(buffer) + junk;
    assert buf[0..0 + |CREATE|] == CREATE;
    assert buf[|CREATE|] == NUL;
    StrtokFindsWord(buf, 0, CREATE, {COMMA});
    assert buf[..|CREATE|] == CREATE;
  }

  lemma {:induction false} FirstCommaAt(s: Bytes, i: nat, c: nat)
    requires i <= c < |s| && s[c] == COMMA
    requires forall k :: i <= k < c ==> s[k] != COMMA
    ensures FirstComma(s, i) == c
    decreases c - i
  {
    if i < c { FirstCommaAt(s, i + 1, c); }
  }

  lemma SplitAtComma(buf: Bytes, word: Bytes, more: Bytes)
    requires COMMA !in word && word + [COMMA] + more <= buf
    ensures FirstComma(buf, 0) == |word| && buf[..|word|] == word
  {
    var head := word + [COMMA] + more;
    assert forall k :: 0 <= k < |head| ==> buf[k] == head[k];
    FirstCommaAt(buf, 0, |word|);
  }

  lemma JavaReadsId(buf: Bytes, from: nat, id: nat)
    requires id < NINE_DIGITS
    requires var e := from + |Digits(id)|; e < |buf| && buf[from..e] == Digits(id) && buf[e] == COMMA
    ensures var e := from + |Digits(id)|; FirstComma(buf, from) == e && ParseInt(buf[from..e]) == Some(id)
  {
    var e := from + |Digits(id)|;
    forall k | from <= k < e ensures buf[k] != COMMA { assert buf[k] == buf[from..e][k - from]; }
    FirstCommaAt(buf, from, e);
    ParseIntOfNumeral(id);
  }

  /** split and parseInt on "word,<id>,...". */
  lemma JavaReadsHead(buf: Bytes, word: Bytes, id: nat)
    requires COMMA !in word && id < NINE_DIGITS
    requires |IdText(word, id)| < |buf| && IdText(word, id) + [COMMA] == buf[..|IdText(word, id)| + 1]
    ensures FirstComma(buf, 0) == |word| && buf[..|word|] == word
    ensures FirstComma(buf, |word| + 1) == |IdText(word, id)|
    ensures ParseInt(buf[|word| + 1..|IdText(word, id)|]) == Some(id)
  {
    var w, e, head := |word|, |IdText(word, id)|, IdText(word, id) + [COMMA];
    assert head == word + [COMMA] + (Digits(id) + [COMMA]);
    SplitAtComma(buf, word, Digits(id) + [COMMA]);
    assert buf[w + 1..e] == head[w + 1..e] == Digits(id);
    assert buf[e] == head[e] == COMMA;
    hide FirstComma, ParseInt, IsDigit;
    JavaReadsId(buf, w + 1, id);
  }

  lemma JavaReadsSock(id: nat, payload: Bytes, zeros: nat)
    requires id < NINE_DIGITS
    ensures var m := SockFrame(id, payload); DecodeJava(m + Zeros(zeros), |m|) == Good(Sock(id, payload))
  {
    var m := SockFrame(id, payload);
    var buf := m + Zeros(zeros);
    var head := IdText(SOCK, id) + [COMMA];
    assert m == head + payload;
    assert buf[..|head|] == head;
    assert buf[|head|..|m|] == payload;
    JavaReadsHead(buf, SOCK, id);
    hide FirstComma, ParseInt, Digits;
    assert |head| == IdLen(id) + 6;
  }

  /** Java reads every data frame, and every `accepted` and `close` frame of the C++ side, exactly as C++ does. */
  lemma JavaAgreesOnSock(id: nat, payload: Bytes, junk: Bytes, zeros: nat)
    requires id < NINE_DIGITS
    ensures var m := SockFrame(id, payload);
            DecodeJava(m + Zeros(zeros), |m|) == DecodeCpp(m + junk, |m|) == Good(Sock(id, payload))
  {
    CppSockRoundTrip(id, payload, junk);
    JavaReadsSock(id, payload, zeros);
    hide DecodeCpp, DecodeJava;
  }

  lemma JavaReadsControl(word: Bytes, id: nat, buffer: Bytes, zeros: nat)
    requires word in {ACCEPTED, CLOSE} && id < NINE_DIGITS
    requires |buffer| == HEADER_SIZE && |IdText(word, id) + [COMMA]| < HEADER_SIZE
    ensures DecodeJava(Control(IdText(word, id) + [COMMA], buffer) + Zeros(zeros), HEADER_SIZE)
         == Good(if word == ACCEPTED then Accepted(id) else Close(id))
  {
    var head := IdText(word, id) + [COMMA];
    var buf := Control(head, buffer) + Zeros(zeros);
    assert buf[..|head|] == head;
    hide Control, FirstComma, ParseInt;
    JavaReadsHead(buf, word, id);
  }

  lemma JavaAgreesOnControl(word: Bytes, id: nat, buffer: Bytes, junk: Bytes, zeros: nat)
    requires word in {ACCEPTED, CLOSE} && id < NINE_DIGITS && |buffer| == HEADER_SIZE
    ensures var m := if word == ACCEPTED then CppAccepted(id, buffer) else CppClose(id, buffer);
            DecodeJava(m + Zeros(zeros), HEADER_SIZE) == DecodeCpp(m + junk, HEADER_SIZE)
              == Good(if word == ACCEPTED then Accepted(id) else Close(id))
  {
    NineDigits(id);
    hide DecodeJava, DecodeCpp, Control;
    CppControlRoundTrip(word, id, [COMMA], buffer, junk);
    JavaReadsControl(word, id, buffer, zeros);
  }

  /** Java's own frames: `create`, `accepted` and `close` mean the same to C++ ... */
  lemma CppReadsJava(id: nat, junk: Bytes)
    requires id < NINE_DIGITS
    ensures DecodeCpp(JavaCreate() + junk, HEADER_SIZE) == Good(Create)
    ensures DecodeCpp(JavaAccepted(id) + junk, HEADER_SIZE) == Good(Accepted(id))
    ensures DecodeCpp(JavaClose(id) + junk, HEADER_SIZE) == Good(Close(id))
  {
    NineDigits(id);
    assert forall word: Bytes :: IdText(word, id) + [] == IdText(word, id);
    CppCreateRoundTrip(Zeros(HEADER_SIZE), junk);
    CppControlRoundTrip(ACCEPTED, id, [], Zeros(HEADER_SIZE), junk);
    CppControlRoundTrip(CLOSE, id, [], Zeros(HEADER_SIZE), junk);
  }

  /** ... but not to Java: it takes no `create` for one, whoever sent it, and throws on its own `accepted`
      and `close`, because the padding ends up in the token. A Java endpoint can only connect. */
  lemma JavaCannotReadItself(id: nat, buffer: Bytes, zeros: nat)
    requires id < NINE_DIGITS && |buffer| == HEADER_SIZE
    ensures DecodeJava(CppCreate(buffer) + Zeros(zeros), HEADER_SIZE) == Unknown
    ensures DecodeJava(JavaCreate() + Zeros(zeros), HEADER_SIZE) == Unknown
    ensures DecodeJava(JavaAccepted(id) + Zeros(zeros), HEADER_SIZE) == Undefined
    ensures DecodeJava(JavaClose(id) + Zeros(zeros), HEADER_SIZE) == Undefined
  {
    NineDigits(id);
    JavaCreateUnknown(buffer, zeros);
    JavaCreateUnknown(Zeros(HEADER_SIZE), zeros);
    JavaThrows(ACCEPTED, id, zeros);
    JavaThrows(CLOSE, id, zeros);
  }

  lemma JavaCreateUnknown(buffer: Bytes, zeros: nat)
    requires |buffer| == HEADER_SIZE
    ensures DecodeJava(CppCreate(buffer) + Zeros(zeros), HEADER_SIZE) == Unknown
  {
    var buf := CppCreate(buffer) + Zeros(zeros);
    var head := CREATE + [NUL];
    assert buf[..7] == head;
    FirstCommaBeyond(buf, 0, 7);
    var word := buf[..FirstComma(buf, 0)];
    assert word[0] == head[0] == 99 && word[1] == head[1] == 114;
  }

  lemma {:induction false} FirstCommaBeyond(s: Bytes, i: nat, n: nat)
    requires i <= n <= |s| && forall k :: i <= k < n ==> s[k] != COMMA
    ensures FirstComma(s, i) >= n
    decreases n - i
  {
    if i < n { FirstCommaBeyond(s, i + 1, n); }
  }

  lemma PaddingStaysInToken(buf: Bytes, word: Bytes, id: nat)
    requires COMMA !in word && |IdText(word, id)| < |buf| && IdText(word, id) == buf[..|IdText(word, id)|]
    requires forall k :: |IdText(word, id)| <= k < |buf| ==> buf[k] == NUL
    ensures FirstComma(buf, 0) == |word| && buf[..|word|] == word
    ensures FirstComma(buf, |word| + 1) == |buf|
    ensures ParseInt(buf[|word| + 1..]) == None
  {
    var w, e := |word|, |IdText(word, id)|;
    SplitAtComma(buf, word, Digits(id));
    var junk := buf[e..];
    var token := Digits(id) + junk;
    assert buf[w + 1..] == buf[..e][w + 1..] + junk == token;
    assert junk[0] == NUL;
    forall k | w + 1 <= k < |buf| ensures buf[k] != COMMA { assert buf[k] == token[k - (w + 1)]; }
    FirstCommaBeyond(buf, w + 1, |buf|);
    ParseIntRejects(id, junk);
  }

  lemma JavaThrows(word: Bytes, id: nat, zeros: nat)
    requires word in {ACCEPTED, CLOSE} && id < NINE_DIGITS && |IdText(word, id)| < HEADER_SIZE
    ensures DecodeJava(Control(IdText(word, id), Zeros(HEADER_SIZE)) + Zeros(zeros), HEADER_SIZE) == Undefined
  {
    var buf := Control(IdText(word, id), Zeros(HEADER_SIZE)) + Zeros(zeros);
    assert buf[..|IdText(word, id)|] == IdText(word, id);
    PaddingStaysInToken(buf, word, id);
    assert buf[|word| + 1..|buf|] == buf[|word| + 1..];
  }
}
