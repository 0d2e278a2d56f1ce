/** The image transfer over one socket: the block sender of the C++ client, the block sender of the Java
    client, and the receive loop of the server that both must stay in step with. */
module Session {
  import opened Bytes

  const BLOCK: nat := 4096
  const HEADER: nat := 100

  datatype Image = Image(name: Bytes, data: Bytes)

  // ---- what the senders put on the socket ----

  /** "name,size" and a NUL in a 100-byte message; `stack` is what the buffer held before. */
  function HeaderMessage(image: Image, stack: Bytes): Bytes
    requires |stack| == HEADER && |HeaderText(image)| <= HEADER
  {
    Overwrite(stack, 0, HeaderText(image))
  }

  function HeaderText(image: Image): Bytes { image.name + [COMMA] + Digits(|image.data|) + [NUL] }

  /** What makes the header readable: a name without commas or NULs that fits the server's 60-byte buffer, and
      a size that is a C int. */
  predicate Named(image: Image) {
    && 0 < |image.name| < 60 && COMMA !in image.name && NUL !in image.name
    && |image.data| < INT_LIMIT
  }

  lemma HeaderFits(image: Image)
    requires Named(image)
    ensures |HeaderText(image)| <= HEADER
  {
    DigitsLength(|image.data|, 10);
    Pow10Values();
  }

  function Pad(block: Bytes): Bytes
    requires |block| <= BLOCK
  { block + Zeros(BLOCK - |block|) }

  /** Full blocks, the last one padded with zeros; nothing at all for an empty file. */
  function CppBlocks(data: Bytes): seq<Bytes> {
    if data == [] then []
    else if |data| <= BLOCK then [Pad(data)]
    else [data[..BLOCK]] + CppBlocks(data[BLOCK..])
  }

  /** Full blocks, and always a last one that is shorter than a block. */
  function JavaBlocks(data: Bytes): seq<Bytes> {
    if |data| < BLOCK then [data] else [data[..BLOCK]] + JavaBlocks(data[BLOCK..])
  }

  function Blocks(lang: Lang, data: Bytes): seq<Bytes> {
    if lang == Cpp then CppBlocks(data) else JavaBlocks(data)
  }

  function BlockSize(rest: Bytes): (n: nat)
    ensures n <= |rest| && n <= BLOCK
  {
    if |rest| < BLOCK then |rest| else BLOCK
  }

  lemma FullBlock(block: Bytes)
    requires |block| == BLOCK
    ensures Pad(block) == block
  {}

  lemma CppBlocksStep(data: Bytes)
    requires data != []
    ensures var n := BlockSize(data);
            CppBlocks(data) == [Pad(data[..n])] + CppBlocks(data[n..])
  {
    if |data| > BLOCK {
      FullBlock(data[..BLOCK]);
    } else {
      var n := |data|;
      var last, none := data[..n], data[n..];
      assert last == data && none == [];
      var one: seq<Bytes> := [Pad(last)];
      assert CppBlocks(data) == one && CppBlocks(none) == [];
      assert one + [] == one;
    }
  }

  /** bzero and fread: the next block of the file in a buffer that is otherwise zero. */
  method ReadBlock(buffer: array<byte>, file: Bytes, position: nat) returns (length: nat)
    requires buffer.Length == BLOCK && position <= |file|
    modifies buffer
    ensures length == BlockSize(file[position..]) == if |file| - position < 4096 then |file| - position else 4096
    ensures buffer[..] == Pad(file[position..position + length])
    ensures forall i :: 0 <= i < buffer.Length ==> buffer[i] == if i < length then file[position + i] else NUL
  {
    length := if |file| - position < BLOCK then |file| - position else BLOCK;
    forall i | 0 <= i < BLOCK { buffer[i] := NUL; }
    forall i | 0 <= i < length { buffer[i] := file[position + i]; }
    var block := file[position..position + length];
    assert forall i :: 0 <= i < BLOCK ==> buffer[i] == Pad(block)[i];
  }

  /** transmit_child: read a block into a zeroed buffer and send the whole buffer, until nothing is left to read. */
  method SendFile(file: Bytes) returns (sent: seq<Bytes>)
    ensures sent == CppBlocks(file) && |sent| == (|file| + 4095) / 4096
    ensures forall k :: 0 <= k < |sent| ==> |sent[k]| == 4096
    ensures forall k, i :: 0 <= k < |sent| && 0 <= i < |sent[k]| ==>
      sent[k][i] == if k * 4096 + i < |file| then file[k * 4096 + i] else NUL
  {
    sent := [];
    var position: nat := 0;
    var bufferSend := new byte[BLOCK];
    var blockLength := ReadBlock(bufferSend, file, position);
    assert file[0..] == file;
    while blockLength > 0
      invariant position <= |file| && blockLength == BlockSize(file[position..])
      invariant bufferSend[..] == Pad(file[position..position + blockLength])
      invariant sent + CppBlocks(file[position..]) == CppBlocks(file)
      decreases |file| - position
    {
      NextBlock(file, position, sent);
      sent := sent + [bufferSend[..]];
      position := position + blockLength;
      blockLength := ReadBlock(bufferSend, file, position);
    }
    BlockCounts(file);
    forall k | 0 <= k < |sent|
      ensures |sent[k]| == 4096
      ensures forall i :: 0 <= i < |sent[k]| ==>
        sent[k][i] == if k * 4096 + i < |file| then file[k * 4096 + i] else NUL
    {
      CppBlockAt(file, k);
    }
  }

  /** Block k of a file: 4096 bytes from 4096 * k on, and zeros where the file has ended. */
  lemma {:induction false} CppBlockAt(data: Bytes, k: nat)
    requires k < |CppBlocks(data)|
    ensures |CppBlocks(data)[k]| == 4096
    ensures forall i :: 0 <= i < 4096 ==>
      CppBlocks(data)[k][i] == if k * 4096 + i < |data| then data[k * 4096 + i] else NUL
    decreases |data|
  {
    if k > 0 {
      var rest := data[BLOCK..];
      CppBlockAt(rest, k - 1);
      assert CppBlocks(data)[k] == CppBlocks(rest)[k - 1];
      forall i | 0 <= i < 4096
        ensures CppBlocks(data)[k][i] == if k * 4096 + i < |data| then data[k * 4096 + i] else NUL
      {
        var j := (k - 1) * 4096 + i;
        assert CppBlocks(rest)[k - 1][i] == if j < |rest| then rest[j] else NUL;
      }
    }
  }

  lemma JavaBlocksUnfold(data: Bytes)
    ensures |data| < BLOCK ==> JavaBlocks(data) == [data]
    ensures |data| >= BLOCK ==> JavaBlocks(data) == [data[..BLOCK]] + JavaBlocks(data[BLOCK..])
  {}

  /** The same for Java, whose last block has what is left and no more. */
  lemma {:induction false} JavaBlockAt(data: Bytes, k: nat)
    requires k < |JavaBlocks(data)|
    ensures |JavaBlocks(data)[k]| == if k < |data| / 4096 then 4096 else |data| % 4096
    ensures k * 4096 + |JavaBlocks(data)[k]| <= |data|
    ensures forall i :: 0 <= i < |JavaBlocks(data)[k]| ==> JavaBlocks(data)[k][i] == data[k * 4096 + i]
    decreases |data|
  {
    hide JavaBlocks;
    JavaBlocksUnfold(data);
    if k > 0 {
      var rest := data[BLOCK..];
      JavaBlockAt(rest, k - 1);
      var block := JavaBlocks(rest)[k - 1];
      assert JavaBlocks(data)[k] == block;
      forall i | 0 <= i < |block| ensures block[i] == data[k * 4096 + i] {
        assert block[i] == rest[(k - 1) * 4096 + i];
      }
    }
  }

  lemma NextBlock(file: Bytes, position: nat, sent: seq<Bytes>)
    requires position < |file|
    ensures var n := BlockSize(file[position..]);
            sent + CppBlocks(file[position..])
              == sent + [Pad(file[position..position + n])] + CppBlocks(file[position + n..])
  {
    var rest, n := file[position..], BlockSize(file[position..]);
    CppBlocksStep(rest);
    hide CppBlocks, Pad;
    assert rest[..n] == file[position..position + n] && rest[n..] == file[position + n..];
    assert sent + ([Pad(rest[..n])] + CppBlocks(rest[n..])) == sent + [Pad(rest[..n])] + CppBlocks(rest[n..]);
  }

  /** TransmitThread.run: remain and index walk over the array. */
  method SendArray(img: array<byte>, imgSize: nat) returns (sent: seq<Bytes>)
    requires imgSize <= img.Length
    ensures sent == JavaBlocks(img[..imgSize]) && |sent| == imgSize / 4096 + 1
    ensures forall k :: 0 <= k < |sent| ==> |sent[k]| == if k < |sent| - 1 then 4096 else imgSize % 4096
    ensures forall k, i :: 0 <= k < |sent| && 0 <= i < |sent[k]| ==>
      k * 4096 + i < imgSize && sent[k][i] == img[k * 4096 + i]
  {
    sent := [];
    var index, remain := 0, imgSize;
    while remain >= BLOCK
      invariant 0 <= remain && 0 <= index && index + remain == imgSize
      invariant sent + JavaBlocks(img[index..imgSize]) == JavaBlocks(img[..imgSize])
    {
      ghost var rest := img[index..imgSize];
      assert rest[..BLOCK] == img[index..index + BLOCK] && rest[BLOCK..] == img[index + BLOCK..imgSize];
      assert sent + ([rest[..BLOCK]] + JavaBlocks(rest[BLOCK..])) == sent + [rest[..BLOCK]] + JavaBlocks(rest[BLOCK..]);
      sent := sent + [img[index..index + BLOCK]];
      remain := remain - BLOCK;
      index := index + BLOCK;
    }
    sent := sent + [img[index..index + remain]];
    ghost var data := img[..imgSize];
    BlockCounts(data);
    forall k | 0 <= k < |sent|
      ensures |sent[k]| == if k < |sent| - 1 then 4096 else imgSize % 4096
      ensures forall i :: 0 <= i < |sent[k]| ==> k * 4096 + i < imgSize && sent[k][i] == img[k * 4096 + i]
    {
      JavaBlockAt(data, k);
    }
  }

  /** Frames per image: ceil(n / 4096) for C++, floor(n / 4096) + 1 for Java. */
  lemma {:induction false} BlockCounts(data: Bytes)
    ensures |CppBlocks(data)| == (|data| + BLOCK - 1) / BLOCK
    ensures |JavaBlocks(data)| == |data| / BLOCK + 1
    decreases |data|
  {
    if |data| >= BLOCK { BlockCounts(data[BLOCK..]); }
  }

  // ---- what the server makes of it ----

  /** Between images, inside one (`got` so far of `size` bytes), or undefined: the header has no name and
      size, or a size that is negative. */
  datatype Server =
    | Idle(done: seq<Image>)
    | Receiving(done: seq<Image>, name: Bytes, size: nat, got: Bytes)
    | Undefined

  /** MsgD.recv into a zeroed buffer of `size` bytes. */
  function Received(message: Bytes, size: nat): (b: Bytes)
    ensures |b| == size
  {
    if |message| < size then message + Zeros(size - |message|) else message[..size]
  }

  lemma ReceivedAt(message: Bytes, size: nat, i: nat)
    requires i < size
    ensures Received(message, size)[i] == if i < |message| then message[i] else NUL
  {}

  function ReadHeader(message: Bytes): Option<(Bytes, nat)> {
    ParseHeader(Received(message, HEADER) + Zeros(BLOCK - HEADER))
  }

  /** The two strtok calls and strtol on the zero-filled buffer. */
  function ParseHeader(buf: Bytes): Option<(Bytes, nat)> {
    match Strtok(buf, 0, {COMMA})
    case None => None
    case Some(name) =>
      var cut := buf[name.end := NUL];
      match Strtok(cut, name.next, {COMMA})
      case None => None
      case Some(size) =>
        var n := Strtol(cut[size.start..size.end]);
        if 0 <= n < INT_LIMIT && name.end - name.start < 60 then Some((buf[name.start..name.end], n)) else None
  }

  /** One message at the server. */
  function ServerStep(s: Server, message: Bytes): Server {
    match s
    case Undefined => Undefined
    case Idle(done) =>
      (match ReadHeader(message)
       case None => Undefined
       case Some((name, n)) => Receiving(done, name, n, []))
    case Receiving(done, name, size, got) =>
      if |got| > size then Undefined
      else if size - |got| <= BLOCK then
        Idle(done + [Image(name, got + Received(message, BLOCK)[..size - |got|])])
      else Receiving(done, name, size, got + Received(message, BLOCK))
  }

  function Feed(s: Server, messages: seq<Bytes>): Server
    decreases |messages|
  {
    if messages == [] then s else Feed(ServerStep(s, messages[0]), messages[1..])
  }

  lemma {:induction false} FeedAppend(s: Server, a: seq<Bytes>, b: seq<Bytes>)
    ensures Feed(s, a + b) == Feed(Feed(s, a), b)
    decreases |a|
  {
    if a == [] {
      assert a + b == b;
    } else {
      assert (a + b)[1..] == a[1..] + b;
      FeedAppend(ServerStep(s, a[0]), a[1..], b);
    }
  }

  lemma FeedNothing(s: Server)
    ensures Feed(s, []) == s
  {}

  lemma FeedOne(s: Server, message: Bytes, rest: seq<Bytes>)
    ensures Feed(s, [message] + rest) == Feed(ServerStep(s, message), rest)
  {
    assert ([message] + rest)[1..] == rest;
  }

  /** Byte i of what is still to come is byte i % 4096 of message i / 4096, and zero where that is too short. */
  lemma {:induction false} FeedBytes(size: nat, got: Bytes, messages: seq<Bytes>)
    requires |got| <= size
    requires |messages| == if size == |got| then 1 else (size - |got| + 4095) / 4096
    ensures var end := Feed(Receiving([], [], size, got), messages);
            && end.Idle? && |end.done| == 1 && |end.done[0].data| == size && got <= end.done[0].data
            && forall i :: 0 <= i < size - |got| ==>
                 end.done[0].data[|got| + i]
                   == if i % 4096 < |messages[i / 4096]| then messages[i / 4096][i % 4096] else NUL
    decreases |messages|
  {
    var s := Receiving([], [], size, got);
    var m, rest := messages[0], messages[1..];
    assert Feed(s, messages) == Feed(ServerStep(s, m), rest);
    if size - |got| <= BLOCK {
      var d := got + Received(m, BLOCK)[..size - |got|];
      assert rest == [];
      forall i | 0 <= i < size - |got| ensures d[|got| + i] == if i < |m| then m[i] else NUL {
        ReceivedAt(m, BLOCK, i);
      }
    } else {
      var more := got + Received(m, BLOCK);
      FeedBytes(size, more, rest);
      hide ServerStep, Feed, Received;
      var end := Feed(Receiving([], [], size, more), rest);
      var d := end.done[0].data;
      forall i | 0 <= i < size - |got|
        ensures d[|got| + i] == if i % 4096 < |messages[i / 4096]| then messages[i / 4096][i % 4096] else NUL
      {
        if i < 4096 {
          ReceivedAt(m, BLOCK, i);
          assert d[|got| + i] == more[|got| + i] == Received(m, BLOCK)[i];
        } else {
          var j := i - 4096;
          assert d[|got| + i] == d[|more| + j] && j / 4096 == i / 4096 - 1 && j % 4096 == i % 4096;
        }
      }
    }
  }

  lemma FeedNext(s: Server, messages: seq<Bytes>, used: nat)
    requires used < |messages|
    ensures Feed(s, messages[..used + 1]) == ServerStep(Feed(s, messages[..used]), messages[used])
  {
    assert messages[..used + 1] == messages[..used] + [messages[used]];
    FeedAppend(s, messages[..used], [messages[used]]);
    FeedOne(Feed(s, messages[..used]), messages[used], []);
    FeedNothing(ServerStep(Feed(s, messages[..used]), messages[used]));
    assert [messages[used]] + [] == [messages[used]];
  }

  /** After the first `used` messages the server is inside an image of `size` bytes and has `got`. */
  ghost predicate Inside(messages: seq<Bytes>, used: nat, size: nat, got: Bytes) {
    used <= |messages| && forall done, name ::
      Feed(Receiving(done, name, size, []), messages[..used]) == Receiving(done, name, size, got)
  }

  /** After them it has rebuilt it. */
  ghost predicate Rebuilt(messages: seq<Bytes>, used: nat, size: nat, data: Bytes) {
    used <= |messages| && forall done, name ::
      Feed(Receiving(done, name, size, []), messages[..used]) == Idle(done + [Image(name, data)])
  }

  lemma OneMore(messages: seq<Bytes>, used: nat, size: nat, got: Bytes)
    requires Inside(messages, used, size, got) && used < |messages| && |got| <= size
    ensures var buffer := Received(messages[used], BLOCK);
            if size - |got| <= BLOCK then Rebuilt(messages, used + 1, size, got + buffer[..size - |got|])
            else Inside(messages, used + 1, size, got + buffer)
  {
    forall done, name
      ensures Feed(Receiving(done, name, size, []), messages[..used + 1])
           == ServerStep(Receiving(done, name, size, got), messages[used])
    {
      FeedNext(Receiving(done, name, size, []), messages, used);
    }
    hide Feed, Received, ReadHeader;
  }

  lemma RebuiltBytes(messages: seq<Bytes>, used: nat, size: nat, data: Bytes)
    requires Rebuilt(messages, used, size, data) && used == if size == 0 then 1 else (size + 4095) / 4096
    ensures |data| == size && forall i :: 0 <= i < size ==>
      data[i] == if i % 4096 < |messages[i / 4096]| then messages[i / 4096][i % 4096] else NUL
  {
    FeedBytes(size, [], messages[..used]);
    hide Feed;
    assert Feed(Receiving([], [], size, []), messages[..used]) == Idle([] + [Image([], data)]);
  }

  /** The receive loop of server_transmit for one image, over the messages that are there; `ok` is false when
      it would still wait for one. */
  method ReceiveImage(messages: seq<Bytes>, fileSize: nat) returns (ok: bool, img: array<byte>, used: nat)
    ensures used <= |messages| && (!ok ==> used == |messages|) && img.Length == fileSize
    ensures ok ==> forall done, name ::
      Feed(Receiving(done, name, fileSize, []), messages[..used]) == Idle(done + [Image(name, img[..])])
    ensures !ok ==> forall done, name :: Feed(Receiving(done, name, fileSize, []), messages).Receiving?
    ensures ok <==> |messages| >= if fileSize == 0 then 1 else (fileSize + 4095) / 4096
    ensures ok ==> used == if fileSize == 0 then 1 else (fileSize + 4095) / 4096
    ensures ok ==> forall i :: 0 <= i < fileSize ==>
      img[i] == if i % 4096 < |messages[i / 4096]| then messages[i / 4096][i % 4096] else NUL
  {
    img := new byte[fileSize];
    var offset := 0;
    used := 0;
    assert messages[..0] == [];
    assert Inside(messages, used, fileSize, img[..offset]);
    hide Received, Inside, Rebuilt, Feed;
    while used < |messages|
      invariant used <= |messages| && offset == used * BLOCK && (offset == 0 || offset < fileSize)
      invariant Inside(messages, used, fileSize, img[..offset])
    {
      OneMore(messages, used, fileSize, img[..offset]);
      var buffer := Received(messages[used], BLOCK);
      ghost var got := img[..offset];
      used := used + 1;
      if fileSize - offset <= BLOCK {
        var remain := fileSize - offset;
        forall i | 0 <= i < remain { img[i + offset] := buffer[i]; }
        assert img[..] == got + buffer[..remain];
        RebuiltBytes(messages, used, fileSize, img[..]);
        RebuiltFeeds(messages, used, fileSize, img[..]);
        return true, img, used;
      }
      forall i | 0 <= i < BLOCK { img[i + offset] := buffer[i]; }
      assert img[..offset + BLOCK] == got + buffer;
      offset := offset + BLOCK;
    }
    StillInside(messages, fileSize, img[..offset]);
    ok := false;
  }

  lemma RebuiltFeeds(messages: seq<Bytes>, used: nat, size: nat, data: Bytes)
    requires Rebuilt(messages, used, size, data)
    ensures used <= |messages| && forall done, name ::
      Feed(Receiving(done, name, size, []), messages[..used]) == Idle(done + [Image(name, data)])
  {}

  lemma StillInside(messages: seq<Bytes>, size: nat, got: Bytes)
    requires Inside(messages, |messages|, size, got)
    ensures forall done, name :: Feed(Receiving(done, name, size, []), messages).Receiving?
  {
    assert messages[..|messages|] == messages;
  }

  // ---- sender and server together ----

  /** "name,size", NUL, and what the buffer held behind that. */
  lemma HeaderSpelled(image: Image, stack: Bytes)
    requires Named(image) && |stack| == 100 && |HeaderText(image)| <= 100
    ensures var m, w := HeaderMessage(image, stack), |image.name|;
            var e := w + 1 + |Digits(|image.data|)|;
            && |m| == 100 && e < 100 && m[..w] == image.name && m[w] == 44 && m[w + 1..e] == Digits(|image.data|)
            && m[e] == 0 && m[e + 1..] == stack[e + 1..]
  {
    hide HeaderText, Digits, Named, HeaderMessage;
    var text, m, w := HeaderText(image), HeaderMessage(image, stack), |image.name|;
    var e := w + 1 + |Digits(|image.data|)|;
    HeaderTextSpelled(image);
    HeaderStartsWithText(image, stack);
    TailKept(image, stack);
    SameStart(m, text, w, e);
  }

  lemma SameStart(m: Bytes, text: Bytes, w: nat, e: nat)
    requires text <= m && w < e < |text|
    ensures m[..w] == text[..w] && m[w + 1..e] == text[w + 1..e] && m[w] == text[w] && m[e] == text[e]
  {}

  lemma TailKept(image: Image, stack: Bytes)
    requires |stack| == 100 && |HeaderText(image)| <= 100
    ensures HeaderMessage(image, stack)[|HeaderText(image)|..] == stack[|HeaderText(image)|..]
  {
    hide HeaderText;
  }

  lemma HeaderTextSpelled(image: Image)
    ensures var text, w := HeaderText(image), |image.name|;
            var e := w + 1 + |Digits(|image.data|)|;
            && |text| == e + 1 && text[..w] == image.name && text[w] == 44 && text[w + 1..e] == Digits(|image.data|)
            && text[e] == 0
  {
    hide Digits;
  }

  /** The server takes the first token for the name and the second for the size, whatever the message is. */
  lemma HeaderIsTwoTokens(buf: Bytes, t: Token, u: Token)
    requires IsNextToken(buf, 0, t, {44}) && IsNextToken(buf[t.end := 0], t.next, u, {44})
    ensures var n := Strtol(buf[t.end := 0][u.start..u.end]);
            ParseHeader(buf)
              == if 0 <= n < 0x8000_0000 && t.end - t.start < 60 then Some((buf[t.start..t.end], n)) else None
  {
    StrtokIff(buf, 0, t, {44});
    StrtokIff(buf[t.end := 0], t.next, u, {44});
    hide Strtok, Strtol, IsNextToken;
  }

  lemma ParsesNameAndSize(buf: Bytes, name: Bytes, n: nat)
    requires 0 < |name| < 60 && COMMA !in name && NUL !in name && n < INT_LIMIT
    requires name + [COMMA] + Digits(n) + [NUL] <= buf
    ensures ParseHeader(buf) == Some((name, n))
  {
    var digits := Digits(n);
    var text, cut, from := name + [COMMA] + digits + [NUL], buf[|name| := NUL], |name| + 1;
    assert forall k :: 0 <= k < |text| ==> buf[k] == text[k];
    assert buf[0..|name|] == name;
    StrtokFindsWord(buf, 0, name, {COMMA});
    assert cut[from..from + |digits|] == digits;
    assert cut[from + |digits|] == text[from + |digits|] == NUL;
    StrtokFindsWord(cut, from, digits, {COMMA});
    StrtolOfNumeral(n, []);
    assert digits + [] == digits;
  }

  lemma HeaderStartsWithText(image: Image, stack: Bytes)
    requires |stack| == HEADER && |HeaderText(image)| <= HEADER
    ensures |HeaderMessage(image, stack)| == HEADER && HeaderText(image) <= HeaderMessage(image, stack)
  {
    var text, message := HeaderText(image), HeaderMessage(image, stack);
    hide HeaderText;
    assert message[..|text|] == text;
  }

  /** The server reads the name and the size that the header was built from. */
  lemma HeaderRoundTrip(image: Image, stack: Bytes)
    requires Named(image) && |stack| == HEADER && |HeaderText(image)| <= HEADER
    ensures ReadHeader(HeaderMessage(image, stack)) == Some((image.name, |image.data|))
  {
    var message := HeaderMessage(image, stack);
    HeaderStartsWithText(image, stack);
    hide HeaderMessage, ParseHeader;
    var buf := Received(message, HEADER) + Zeros(BLOCK - HEADER);
    assert buf[..HEADER] == message;
    assert HeaderText(image) <= buf;
    ParsesNameAndSize(buf, image.name, |image.data|);
  }

  /** All messages of one image. */
  function Messages(lang: Lang, image: Image, stack: Bytes): seq<Bytes>
    requires Named(image) && |stack| == HEADER
  {
    HeaderFits(image);
    [HeaderMessage(image, stack)] + Blocks(lang, image.data)
  }

  /** When the sender emits exactly the number of blocks that the server consumes. */
  predicate InStep(lang: Lang, n: nat) {
    if lang == Cpp then n > 0 else n == 0 || n % BLOCK != 0
  }

  lemma {:induction false} CppBlocksFeed(done: seq<Image>, name: Bytes, got: Bytes, data: Bytes)
    requires data != []
    ensures Feed(Receiving(done, name, |got| + |data|, got), CppBlocks(data)) == Idle(done + [Image(name, got + data)])
    decreases |data|
  {
    var s := Receiving(done, name, |got| + |data|, got);
    if |data| <= BLOCK {
      assert Received(Pad(data), BLOCK)[..|data|] == data;
      FeedOne(s, Pad(data), []);
      assert [Pad(data)] + [] == CppBlocks(data);
    } else {
      var head, rest := data[..BLOCK], data[BLOCK..];
      assert Received(head, BLOCK) == head;
      FeedOne(s, head, CppBlocks(rest));
      CppBlocksFeed(done, name, got + head, rest);
      assert got + head + rest == got + data;
    }
  }

  /** For Java the image itself always arrives; a last empty block is left over when the size is a non-zero
      multiple of the block size. */
  lemma {:induction false} JavaBlocksFeed(done: seq<Image>, name: Bytes, got: Bytes, data: Bytes)
    ensures Feed(Receiving(done, name, |got| + |data|, got), JavaBlocks(data))
         == Feed(Idle(done + [Image(name, got + data)]), if InStep(Java, |data|) then [] else [[]])
    decreases |data|
  {
    var s := Receiving(done, name, |got| + |data|, got);
    if |data| < BLOCK {
      assert Received(data, BLOCK)[..|data|] == data;
      FeedOne(s, data, []);
      assert [data] + [] == JavaBlocks(data);
    } else {
      var head, rest := data[..BLOCK], data[BLOCK..];
      assert Received(head, BLOCK) == head;
      FeedOne(s, head, JavaBlocks(rest));
      assert got + head + rest == got + data;
      if rest == [] {
        assert head == data && JavaBlocks(rest) == [[]];
      } else {
        JavaBlocksFeed(done, name, got + head, rest);
      }
    }
  }

  lemma HeaderStarts(done: seq<Image>, image: Image, stack: Bytes)
    requires Named(image) && |stack| == HEADER && |HeaderText(image)| <= HEADER
    ensures ServerStep(Idle(done), HeaderMessage(image, stack)) == Receiving(done, image.name, |image.data|, [])
  {
    HeaderRoundTrip(image, stack);
    hide HeaderMessage, HeaderText, ReadHeader, Named;
  }

  /** One image: the server rebuilds it from exactly the messages sent when sender and server are in step. */
  lemma ImageRoundTrip(lang: Lang, done: seq<Image>, image: Image, stack: Bytes)
    requires Named(image) && |stack| == HEADER && InStep(lang, |image.data|)
    ensures Feed(Idle(done), Messages(lang, image, stack)) == Idle(done + [image])
  {
    HeaderFits(image);
    HeaderStarts(done, image, stack);
    FeedOne(Idle(done), HeaderMessage(image, stack), Blocks(lang, image.data));
    if lang == Cpp { CppBlocksFeed(done, image.name, [], image.data); }
    else { JavaBlocksFeed(done, image.name, [], image.data); }
    assert [] + image.data == image.data;
    hide ServerStep, HeaderMessage, CppBlocks, JavaBlocks, Named;
  }

  // ---- whole sessions ----

  /** An image to send, and what the header buffer holds before. */
  datatype Job = Job(image: Image, stack: Bytes)

  predicate Good(j: Job) { Named(j.image) && |j.stack| == HEADER }

  predicate AllInStep(lang: Lang, jobs: seq<Job>) {
    forall i :: 0 <= i < |jobs| ==> InStep(lang, |jobs[i].image.data|)
  }

  predicate AllGood(jobs: seq<Job>) { forall i :: 0 <= i < |jobs| ==> Good(jobs[i]) }

  function Images(jobs: seq<Job>): (images: seq<Image>)
    ensures |images| == |jobs| && forall i :: 0 <= i < |jobs| ==> images[i] == jobs[i].image
  {
    seq(|jobs|, i requires 0 <= i < |jobs| => jobs[i].image)
  }

  function SessionMessages(lang: Lang, jobs: seq<Job>): seq<Bytes>
    requires AllGood(jobs)
  {
    if jobs == [] then []
    else Messages(lang, jobs[0].image, jobs[0].stack) + SessionMessages(lang, jobs[1..])
  }

  lemma {:induction false} SessionFeed(lang: Lang, done: seq<Image>, jobs: seq<Job>)
    requires AllGood(jobs) && AllInStep(lang, jobs)
    ensures Feed(Idle(done), SessionMessages(lang, jobs)) == Idle(done + Images(jobs))
    decreases |jobs|
  {
    hide Feed, Messages;
    if jobs == [] {
      FeedNothing(Idle(done));
      assert done + Images(jobs) == done;
    } else {
      AllInStepFront(lang, jobs);
      var first, image := Messages(lang, jobs[0].image, jobs[0].stack), jobs[0].image;
      ImageRoundTrip(lang, done, image, jobs[0].stack);
      FeedAppend(Idle(done), first, SessionMessages(lang, jobs[1..]));
      SessionFeed(lang, done + [image], jobs[1..]);
      assert done + [image] + Images(jobs[1..]) == done + Images(jobs);
    }
  }

  /** Messages that the server takes for an image of n bytes: the header and at least one block. */
  function Needed(n: nat): nat { if n == 0 then 2 else 1 + (n + BLOCK - 1) / BLOCK }

  function AllNeeded(images: seq<Image>): nat {
    if images == [] then 0 else AllNeeded(images[..|images| - 1]) + Needed(|images[|images| - 1].data|)
  }

  /** How many messages the server has taken since it was idle with nothing done. */
  function Taken(s: Server): nat {
    match s
    case Idle(done) => AllNeeded(done)
    case Receiving(done, _, size, got) => AllNeeded(done) + 1 + |got| / BLOCK
    case Undefined => 0
  }

  predicate WholeBlocks(s: Server) {
    s.Receiving? ==> |s.got| % BLOCK == 0 && (s.got == [] || |s.got| < s.size)
  }

  lemma StepTakesOne(s: Server, message: Bytes)
    requires WholeBlocks(s)
    ensures var s' := ServerStep(s, message);
            WholeBlocks(s') && (!s'.Undefined? ==> Taken(s') == Taken(s) + 1)
  {
    var s' := ServerStep(s, message);
    if s.Receiving? && s'.Idle? {
      assert s'.done[..|s.done|] == s.done;
      assert |s'.done[|s.done|].data| == s.size;
      var k := |s.got| / BLOCK;
      assert |s.got| == BLOCK * k;
      assert s.size > 0 ==> (s.size + BLOCK - 1) / BLOCK == k + 1;
    }
  }

  lemma {:induction false} FeedTakesAll(s: Server, messages: seq<Bytes>)
    requires WholeBlocks(s) && !Feed(s, messages).Undefined?
    ensures Taken(Feed(s, messages)) == Taken(s) + |messages|
    decreases |messages|
  {
    if messages != [] {
      StepTakesOne(s, messages[0]);
      if ServerStep(s, messages[0]).Undefined? { StaysUndefined(messages[1..]); }
      FeedTakesAll(ServerStep(s, messages[0]), messages[1..]);
    }
  }

  lemma {:induction false} StaysUndefined(messages: seq<Bytes>)
    ensures Feed(Undefined, messages) == Undefined
    decreases |messages|
  {
    if messages != [] { StaysUndefined(messages[1..]); }
  }

  /** A C++ sender never sends more messages than are taken for its images, and a Java sender never fewer;
      the numbers agree exactly when every image is in step. */
  lemma {:induction false} SentAgainstNeeded(lang: Lang, jobs: seq<Job>)
    requires AllGood(jobs)
    ensures lang == Cpp ==> |SessionMessages(lang, jobs)| <= AllNeeded(Images(jobs))
    ensures lang == Java ==> |SessionMessages(lang, jobs)| >= AllNeeded(Images(jobs))
    ensures |SessionMessages(lang, jobs)| == AllNeeded(Images(jobs)) <==> AllInStep(lang, jobs)
    decreases |jobs|
  {
    if jobs != [] {
      SentAgainstNeeded(lang, jobs[1..]);
      OneAgainstNeeded(lang, jobs[0].image.data);
      MessagesLength(lang, jobs[0]);
      assert Images(jobs) == [jobs[0].image] + Images(jobs[1..]);
      NeededFront(jobs[0].image, Images(jobs[1..]));
      AllInStepFront(lang, jobs);
      hide Blocks, InStep, Needed, AllNeeded, AllInStep, Messages, Named, Images;
    }
  }

  lemma MessagesLength(lang: Lang, job: Job)
    requires Good(job)
    ensures |Messages(lang, job.image, job.stack)| == 1 + |Blocks(lang, job.image.data)|
  {
    HeaderFits(job.image);
  }

  lemma OneAgainstNeeded(lang: Lang, data: Bytes)
    ensures lang == Cpp ==> 1 + |Blocks(lang, data)| <= Needed(|data|)
    ensures lang == Java ==> 1 + |Blocks(lang, data)| >= Needed(|data|)
    ensures 1 + |Blocks(lang, data)| == Needed(|data|) <==> InStep(lang, |data|)
  {
    BlockCounts(data);
  }

  lemma AllInStepFront(lang: Lang, jobs: seq<Job>)
    requires jobs != []
    ensures AllInStep(lang, jobs) <==> InStep(lang, |jobs[0].image.data|) && AllInStep(lang, jobs[1..])
  {
    assert forall i :: 0 <= i < |jobs| - 1 ==> jobs[1..][i] == jobs[i + 1];
    if AllInStep(lang, jobs[1..]) {
      forall i | 1 <= i < |jobs| ensures InStep(lang, |jobs[i].image.data|) { assert jobs[i] == jobs[1..][i - 1]; }
    }
  }

  lemma {:induction false} NeededFront(image: Image, rest: seq<Image>)
    ensures AllNeeded([image] + rest) == Needed(|image.data|) + AllNeeded(rest)
    decreases |rest|
  {
    var all := [image] + rest;
    if rest == [] {
      assert all[..0] == [];
    } else {
      var init := rest[..|rest| - 1];
      NeededFront(image, init);
      assert all[..|all| - 1] == [image] + init;
    }
  }

  /** The exact condition, for any sequence of images and either sender: the server ends idle having rebuilt
      exactly those images, in order, with no message left over and none missing, if and only if every image
      sent by C++ is non-empty, or every image sent by Java is empty or not a multiple of the block size. */
  lemma SessionRoundTripIff(lang: Lang, jobs: seq<Job>)
    requires AllGood(jobs)
    ensures Feed(Idle([]), SessionMessages(lang, jobs)) == Idle(Images(jobs)) <==>
            AllInStep(lang, jobs)
  {
    if AllInStep(lang, jobs) {
      SessionFeed(lang, [], jobs);
      assert [] + Images(jobs) == Images(jobs);
    }
    if Feed(Idle([]), SessionMessages(lang, jobs)) == Idle(Images(jobs)) {
      FeedTakesAll(Idle([]), SessionMessages(lang, jobs));
      SentAgainstNeeded(lang, jobs);
    }
  }

  /** An empty message holds no header. */
  lemma EmptyIsNoHeader()
    ensures ReadHeader([]) == None
  {
    assert Received([], HEADER) + Zeros(BLOCK - HEADER) == Zeros(BLOCK);
  }

  /** What a Java image of a whole number of blocks leaves behind is taken for a header, and has none in it. */
  lemma JavaWholeBlocksBreakTheServer(done: seq<Image>, job: Job)
    requires Good(job) && !InStep(Java, |job.image.data|)
    ensures Feed(Idle(done), Messages(Java, job.image, job.stack)) == Undefined
  {
    var image := job.image;
    HeaderFits(image);
    HeaderRoundTrip(image, job.stack);
    JavaBlocksFeed(done, image.name, [], image.data);
    EmptyIsNoHeader();
    hide ReadHeader, HeaderMessage, JavaBlocks, HeaderText, Named;
    FeedOne(Idle(done), HeaderMessage(image, job.stack), JavaBlocks(image.data));
    FeedOne(Idle(done + [Image(image.name, [] + image.data)]), [], []);
    FeedNothing(Undefined);
  }
}
