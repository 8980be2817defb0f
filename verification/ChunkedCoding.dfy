/**
 Chunked transfer coding (section 7.1 of RFC 9112): the body writer of a streamed response and the
 reader of a chunked request, over a byte stream.
 */
module ChunkedCoding {

  const CRLF := "\r\n"
  const SIZE_LIMIT: nat := 0x1_0000_0000_0000_0000

  // ----- Hexadecimal sizes -----

  function HexDigit(n: nat): (c: char)
    requires n < 16
    ensures IsHex(c) && HexValue(c) == n && (c == '0' <==> n == 0)
  {
    if n < 10 then ('0' as int + n) as char else ('a' as int + n - 10) as char
  }

  predicate IsHex(c: char) {
    '0' <= c <= '9' || 'a' <= c <= 'f' || 'A' <= c <= 'F'
  }

  function HexValue(c: char): (n: nat)
    requires IsHex(c)
    ensures n < 16 && (n == 0 <==> c == '0')
  {
    if c <= '9' then c as int - '0' as int
    else if c <= 'F' then c as int - 'A' as int + 10
    else c as int - 'a' as int + 10
  }

  /** Lower-case hexadecimal without leading zeros, as printed by "%zx". */
  function Hex(n: nat): (s: string)
    ensures |s| >= 1 && AllHex(s)
    ensures n > 0 ==> s[0] != '0'
  {
    if n < 16 then [HexDigit(n)] else Hex(n / 16) + [HexDigit(n % 16)]
  }

  predicate AllHex(s: string) {
    forall i :: 0 <= i < |s| ==> IsHex(s[i])
  }

  function HexNumber(s: string): nat
    requires AllHex(s)
  {
    if s == "" then 0 else HexNumber(s[..|s| - 1]) * 16 + HexValue(s[|s| - 1])
  }

  /** The longest prefix of hexadecimal digits. */
  function HexPrefix(s: string): (d: string)
    ensures d <= s && AllHex(d)
  {
    if s == "" || !IsHex(s[0]) then "" else [s[0]] + HexPrefix(s[1..])
  }

  function SkipSpace(s: string): string {
    if s != "" && (s[0] == ' ' || '\t' <= s[0] <= '\r') then SkipSpace(s[1..]) else s
  }

  datatype Number = NotANumber | Number(value: nat)

  /** `stoul` in base 16: leading space, a sign and a 0x are passed over; it throws without digits or over 64 bits. */
  function Stoul16(s: string): Number {
    var t := SkipSpace(s);
    var negative := t != "" && t[0] == '-';
    var u := if t != "" && (t[0] == '-' || t[0] == '+') then t[1..] else t;
    var w := if |u| > 2 && u[0] == '0' && (u[1] == 'x' || u[1] == 'X') && IsHex(u[2]) then u[2..] else u;
    var digits := HexPrefix(w);
    if digits == "" then NotANumber
    else
      var v := HexNumber(digits);
      if v >= SIZE_LIMIT then NotANumber
      else if negative then Number((SIZE_LIMIT - v) % SIZE_LIMIT)
      else Number(v)
  }

  lemma {:induction false} HexNumberOfHex(n: nat)
    ensures HexNumber(Hex(n)) == n
  {
    if n >= 16 {
      HexNumberOfHex(n / 16);
      assert Hex(n)[..|Hex(n)| - 1] == Hex(n / 16);
    } else {
      assert Hex(n)[..0] == "";
    }
  }

  lemma {:induction false} HexPrefixAll(s: string)
    requires AllHex(s)
    ensures HexPrefix(s) == s
  {
    if s != "" {
      HexPrefixAll(s[1..]);
      assert s == [s[0]] + s[1..];
    }
  }

  lemma StoulOfDigits(s: string)
    requires s != "" && AllHex(s) && HexNumber(s) < SIZE_LIMIT
    ensures Stoul16(s) == Number(HexNumber(s))
  {
    hide HexNumber, HexPrefix;
    HexPrefixAll(s);
    assert IsHex(s[0]);
    assert SkipSpace(s) == s;
    assert |s| > 1 ==> IsHex(s[1]);
  }

  lemma {:induction false} PositiveNumber(s: string)
    requires s != "" && AllHex(s) && s[0] != '0'
    ensures HexNumber(s) > 0
    decreases |s|
  {
    if |s| > 1 {
      PositiveNumber(s[..|s| - 1]);
    } else {
      assert s[..0] == "";
    }
  }

  // ----- Lines -----

  /** The length of the first line with its CRLF, or of everything when there is none. */
  function LineLength(s: string): (n: nat)
    ensures n <= |s|
  {
    if |s| < 2 then |s| else if s[0] == '\r' && s[1] == '\n' then 2 else 1 + LineLength(s[1..])
  }

  lemma {:induction false} LineOf(a: string, rest: string)
    requires '\r' !in a
    ensures LineLength(a + CRLF + rest) == |a| + 2
    decreases |a|
  {
    var s := a + CRLF + rest;
    if a != "" {
      assert s[0] == a[0] && a[0] in a;
      assert s[1..] == a[1..] + CRLF + rest;
      LineOf(a[1..], rest);
    }
  }

  lemma {:induction false} NoLine(s: string)
    requires forall i :: 0 <= i < |s| - 1 ==> !(s[i] == '\r' && s[i + 1] == '\n')
    ensures LineLength(s) == |s|
  {
    if |s| >= 2 {
      NoLine(s[1..]);
    }
  }

  // ----- The writer -----

  /** The chunks of the data, then the last chunk and the end of the body. */
  function Encode(data: string, size: nat): string
    requires size > 0
    decreases |data|
  {
    if data == "" then "0\r\n\r\n"
    else
      var n := if size < |data| then size else |data|;
      Hex(n) + CRLF + data[..n] + CRLF + Encode(data[n..], size)
  }

  method SendChunkedBody(data: string, chunkSize: nat) returns (sent: string)
    requires chunkSize > 0
    ensures sent == Encode(data, chunkSize)
  {
    hide Hex;
    sent := "";
    var offset := 0;
    assert data[0..] == data;
    while offset < |data|
      invariant offset <= |data| && sent + Encode(data[offset..], chunkSize) == Encode(data, chunkSize)
      decreases |data| - offset
    {
      var n := if chunkSize < |data| - offset then chunkSize else |data| - offset;
      EncodeStep(data, offset, n, chunkSize);
      Regroup(sent, Hex(n) + CRLF, data[offset..offset + n], CRLF, Encode(data[offset + n..], chunkSize));
      sent := sent + (Hex(n) + CRLF);
      sent := sent + data[offset..offset + n];
      sent := sent + CRLF;
      offset := offset + n;
    }
    sent := sent + "0\r\n\r\n";
  }

  lemma EncodeStep(data: string, offset: nat, n: nat, size: nat)
    requires size > 0 && offset < |data| && n == if size < |data| - offset then size else |data| - offset
    ensures Encode(data[offset..], size) == Hex(n) + CRLF + data[offset..offset + n] + CRLF + Encode(data[offset + n..], size)
  {
    hide Hex;
    assert data[offset..][..n] == data[offset..offset + n] && data[offset..][n..] == data[offset + n..];
  }

  lemma Regroup(s: string, a: string, b: string, c: string, d: string)
    ensures s + (a + b + c + d) == s + a + b + c + d
  {
  }

  // ----- The reader -----

  datatype Body = Threw | Read(data: string, unread: string)

  /** What the reader makes of a stream: the body and the bytes it leaves, or an exception. */
  function Decode(stream: string): Body
    decreases |stream|
  {
    var n := LineLength(stream);
    if n < 2 then Threw
    else
      var rest := stream[n..];
      match Stoul16(stream[..n - 2])
      case NotANumber => Threw
      case Number(size) =>
        if size == 0 then Read("", rest[LineLength(rest)..])
        else if |rest| < size then Threw
        else
          var after := rest[size..];
          match Decode(after[LineLength(after)..])
          case Threw => Threw
          case Read(data, unread) => Read(rest[..size] + data, unread)
  }

  /** The receiving end of a connection. */
  class Socket {
    var unread: string

    constructor (bytes: string)
      ensures unread == bytes
    {
      unread := bytes;
    }

    /** Receives some bytes, at most max of them; nothing only at the end of the stream. */
    method Recv(max: nat) returns (bytes: string)
      requires max > 0
      modifies this
      ensures |bytes| <= max && old(unread) == bytes + unread
      ensures bytes == "" <==> old(unread) == ""
    {
      if unread == "" {
        return "";
      }
      var n: nat :| 1 <= n <= max && n <= |unread|;
      bytes := unread[..n];
      unread := unread[n..];
    }
  }

  lemma {:induction false} LineSoFar(line: string, rest: string)
    requires forall i :: 0 <= i < |line| - 1 ==> !(line[i] == '\r' && line[i + 1] == '\n')
    requires rest != ""
    ensures
      var ends := line != "" && line[|line| - 1] == '\r' && rest[0] == '\n';
      && (ends ==> LineLength(line + rest) == |line| + 1)
      && (!ends ==> LineLength(line + rest) > |line|)
    decreases |line|
  {
    var s := line + rest;
    if |line| >= 2 {
      assert s[0] == line[0] && s[1] == line[1] && s[1..] == line[1..] + rest;
      LineSoFar(line[1..], rest);
    } else if |line| == 1 {
      assert s[0] == line[0] && s[1] == rest[0];
      assert s[1..] == rest;
    } else {
      assert s == rest;
    }
  }

  method RecvLine(sock: Socket) returns (line: string)
    modifies sock
    ensures line == old(sock.unread[..LineLength(sock.unread)])
    ensures sock.unread == old(sock.unread[LineLength(sock.unread)..])
  {
    ghost var all := sock.unread;
    line := "";
    while true
      invariant all == line + sock.unread
      invariant forall i :: 0 <= i < |line| - 1 ==> !(line[i] == '\r' && line[i + 1] == '\n')
      decreases |sock.unread|
    {
      ghost var before := line;
      ghost var rest := sock.unread;
      var c := sock.Recv(1);
      if |c| != 1 {
        NoLine(line);
        assert all == line;
        return;
      }
      LineSoFar(before, rest);
      assert rest[0] == c[0];
      line := line + c;
      assert all == line + sock.unread;
      if |line| >= 2 && line[|line| - 2..] == CRLF {
        assert line[|line| - 2..][0] == '\r' && line[|line| - 2..][1] == '\n';
        assert LineLength(all) == |line|;
        return;
      }
      assert |line| >= 2 ==> line[|line| - 2..] == [line[|line| - 2], line[|line| - 1]];
    }
  }

  /** Reads exactly size bytes, in as many pieces as the connection delivers; false when it closes. */
  method RecvExactly(sock: Socket, size: nat) returns (ok: bool, data: string)
    modifies sock
    ensures ok <==> size <= |old(sock.unread)|
    ensures ok ==> data == old(sock.unread)[..size] && sock.unread == old(sock.unread)[size..]
  {
    ghost var all := sock.unread;
    data := "";
    while |data| < size
      invariant |data| <= size && all == data + sock.unread
      decreases size - |data|
    {
      var piece := sock.Recv(size - |data|);
      if piece == "" {
        assert all == data;
        return false, data;
      }
      assert data + (piece + sock.unread) == data + piece + sock.unread;
      data := data + piece;
    }
    ok := true;
  }

  method ReadChunkedBody(sock: Socket) returns (threw: bool, body: string)
    modifies sock
    ensures threw <==> Decode(old(sock.unread)).Threw?
    ensures !threw ==> Decode(old(sock.unread)) == Read(body, sock.unread)
  {
    hide Stoul16, LineLength, Decode;
    ghost var all := sock.unread;
    body := "";
    FromStart(all);
    while true
      invariant Continues(all, body, sock.unread)
      decreases |sock.unread|
    {
      ghost var stream := sock.unread;
      var sizeLine := RecvLine(sock);
      DecodeLine(stream, sizeLine);
      if |sizeLine| < 2 {
        return true, body;
      }
      var size := Stoul16(sizeLine[..|sizeLine| - 2]);
      if size.NotANumber? {
        return true, body;
      }
      ghost var rest := sock.unread;
      if size.value == 0 {
        var _ := RecvLine(sock);
        assert body + "" == body;
        return false, body;
      }
      var ok, chunk := RecvExactly(sock, size.value);
      if !ok {
        return true, body;
      }
      var _ := RecvLine(sock);
      NextChunk(all, body, stream, rest, size.value);
      body := body + chunk;
    }
  }

  /** What is decoded from the start is the body so far and what is decoded from here. */
  ghost predicate Continues(all: string, body: string, stream: string) {
    match Decode(stream)
    case Threw => Decode(all) == Threw
    case Read(data, unread) => Decode(all) == Read(body + data, unread)
  }

  lemma FromStart(all: string)
    ensures Continues(all, "", all)
  {
    hide Decode;
    match Decode(all)
    case Threw =>
    case Read(data, unread) => assert "" + data == data;
  }

  lemma DecodeLine(stream: string, line: string)
    requires line == stream[..LineLength(stream)]
    ensures
      var rest := stream[|line|..];
      Decode(stream) ==
      if |line| < 2 then Threw
      else match Stoul16(line[..|line| - 2])
        case NotANumber => Threw
        case Number(size) => if size == 0 then Read("", rest[LineLength(rest)..]) else AfterSize(size, rest)
  {
    hide Stoul16, LineLength;
    assert |line| >= 2 ==> line[..|line| - 2] == stream[..|line| - 2];
  }

  lemma NextChunk(all: string, body: string, stream: string, rest: string, n: nat)
    requires Continues(all, body, stream) && Decode(stream) == AfterSize(n, rest) && n <= |rest|
    ensures
      var after := rest[n..];
      Continues(all, body + rest[..n], after[LineLength(after)..])
  {
    hide Decode, LineLength;
    var after := rest[n..];
    match Decode(after[LineLength(after)..])
    case Threw =>
    case Read(data, unread) => assert body + (rest[..n] + data) == body + rest[..n] + data;
  }

  // ----- The round trip -----

  lemma HexIsPlain(n: nat)
    ensures '\r' !in Hex(n)
  {
    assert forall i :: 0 <= i < |Hex(n)| ==> IsHex(Hex(n)[i]);
  }

  /** A complete size line, and whatever follows it. */
  lemma SizeRead(n: nat, tail: string)
    requires 0 < n < SIZE_LIMIT
    ensures Decode(Hex(n) + CRLF + tail) == AfterSize(n, tail)
  {
    var size := Hex(n);
    var stream := size + CRLF + tail;
    HexIsPlain(n);
    LineOf(size, tail);
    HexNumberOfHex(n);
    StoulOfDigits(size);
    hide Stoul16, Hex, LineLength, Decode, AfterSize;
    assert stream[..|size| + 2] == size + CRLF && (size + CRLF)[..|size|] == size && stream[|size| + 2..] == tail;
    DecodeLine(stream, size + CRLF);
  }

  ghost function AfterSize(n: nat, rest: string): Body {
    if |rest| < n then Threw
    else
      var after := rest[n..];
      match Decode(after[LineLength(after)..])
      case Threw => Threw
      case Read(data, unread) => Read(rest[..n] + data, unread)
  }

  /** One chunk read back. */
  lemma ChunkRead(chunk: string, rest: string)
    requires 0 < |chunk| < SIZE_LIMIT
    ensures Decode(Hex(|chunk|) + CRLF + chunk + CRLF + rest) ==
            match Decode(rest) case Threw => Threw case Read(data, unread) => Read(chunk + data, unread)
  {
    hide Decode, Hex;
    var n, after := |chunk|, CRLF + rest;
    assert Hex(n) + CRLF + chunk + CRLF + rest == Hex(n) + CRLF + (chunk + after);
    SizeRead(n, chunk + after);
    assert (chunk + after)[..n] == chunk && (chunk + after)[n..] == after;
    assert after == "" + CRLF + rest;
    LineOf("", rest);
    assert after[2..] == rest;
  }

  lemma LastChunkRead(rest: string)
    ensures Decode("0\r\n\r\n" + rest) == Read("", rest)
  {
    var stream := "0\r\n\r\n" + rest;
    assert stream == "0" + CRLF + (CRLF + rest);
    LineOf("0", CRLF + rest);
    assert "0"[..0] == "";
    StoulOfDigits("0");
    assert stream[..1] == "0" && stream[3..] == CRLF + rest;
    assert CRLF + rest == "" + CRLF + rest;
    LineOf("", rest);
    assert (CRLF + rest)[2..] == rest;
  }

  /** Whatever the data and the chunk size, the reader returns the data and leaves what follows unread. */
  lemma {:induction false} RoundTrip(data: string, size: nat, rest: string)
    requires 0 < size < SIZE_LIMIT
    ensures Decode(Encode(data, size) + rest) == Read(data, rest)
    decreases |data|
  {
    hide Decode, Hex;
    if data == "" {
      LastChunkRead(rest);
    } else {
      var n := if size < |data| then size else |data|;
      var chunk, more := data[..n], Encode(data[n..], size);
      assert Encode(data, size) + rest == Hex(n) + CRLF + chunk + CRLF + (more + rest);
      RoundTrip(data[n..], size, rest);
      ChunkRead(chunk, more + rest);
      assert data == chunk + data[n..];
    }
  }

  // ----- Streams that end too early -----

  /** A size line that is cut short never reads as size zero, and no data follows it. */
  lemma CutSizeLine(n: nat, k: nat)
    requires 0 < n && k < |Hex(n)| + 2
    ensures Decode((Hex(n) + CRLF)[..k]) == Threw
  {
    var size := Hex(n);
    var stream := (size + CRLF)[..k];
    HexIsPlain(n);
    forall i | 0 <= i < |stream| - 1 ensures !(stream[i] == '\r' && stream[i + 1] == '\n') {
      assert i < |size| ==> stream[i] == size[i] && size[i] in size;
    }
    NoLine(stream);
    if k > 2 {
      var digits := stream[..k - 2];
      assert digits == size[..k - 2];
      PositiveNumber(digits);
      if HexNumber(digits) < SIZE_LIMIT {
        StoulOfDigits(digits);
      } else {
        StoulTooLarge(digits);
      }
      hide Stoul16, Hex;
    } else if k == 2 {
      assert stream[..0] == "";
    }
  }

  lemma StoulTooLarge(s: string)
    requires s != "" && AllHex(s) && HexNumber(s) >= SIZE_LIMIT
    ensures Stoul16(s) == NotANumber
  {
    hide HexNumber, HexPrefix;
    HexPrefixAll(s);
    assert IsHex(s[0]);
    assert SkipSpace(s) == s;
    assert |s| > 1 ==> IsHex(s[1]);
  }

  lemma CutChunk(chunk: string, k: nat)
    requires 0 < |chunk| < SIZE_LIMIT && k <= |chunk| + 2
    ensures Decode(Hex(|chunk|) + CRLF + (chunk + CRLF)[..k]) == Threw
  {
    hide Decode, Hex, LineLength;
    var n, tail := |chunk|, (chunk + CRLF)[..k];
    SizeRead(n, tail);
    if k >= n {
      var after := tail[n..];
      assert after == CRLF[..k - n];
      ShortLine(after);
      assert after[|after|..] == "";
      NothingToRead();
    }
  }

  lemma NothingToRead()
    ensures Decode("") == Threw
  {
  }

  lemma ShortLine(s: string)
    requires |s| <= 2 && (|s| == 2 ==> s == CRLF)
    ensures LineLength(s) == |s|
  {
  }

  lemma CutLastChunk(k: nat)
    requires k <= 5
    ensures Decode("0\r\n\r\n"[..k]) == if k >= 3 then Read("", "") else Threw
  {
    var s := "0\r\n\r\n";
    var stream := s[..k];
    if k >= 3 {
      assert stream == "0" + CRLF + s[3..k];
      LineOf("0", s[3..k]);
      assert "0"[..0] == "";
      StoulOfDigits("0");
      hide Stoul16;
      assert stream[..1] == "0" && stream[3..] == s[3..k];
      assert k == 5 ==> s[3..k] == CRLF;
      ShortLine(s[3..k]);
    } else {
      NoLine(stream);
      assert k == 2 ==> stream[..0] == "";
    }
  }

  /**
   A stream that ends inside the body throws, unless all that is missing is the final CRLF; then the
   data is complete. A part of the data is never taken for the whole.
   */
  lemma {:induction false} Truncated(data: string, size: nat, k: nat)
    requires 0 < size < SIZE_LIMIT && k <= |Encode(data, size)|
    ensures Decode(Encode(data, size)[..k]) == if k >= |Encode(data, size)| - 2 then Read(data, "") else Threw
    decreases |data|
  {
    hide Decode, Hex;
    if data == "" {
      CutLastChunk(k);
    } else {
      var n := if size < |data| then size else |data|;
      var chunk, more := data[..n], Encode(data[n..], size);
      var head := Hex(n) + CRLF;
      assert Encode(data, size) == head + (chunk + CRLF) + more;
      EncodedIsLong(data[n..], size);
      if k < |head| {
        assert Encode(data, size)[..k] == head[..k];
        CutSizeLine(n, k);
      } else if k <= |head| + n + 2 {
        assert Encode(data, size)[..k] == head + (chunk + CRLF)[..k - |head|];
        CutChunk(chunk, k - |head|);
      } else {
        var k' := k - |head| - n - 2;
        assert Encode(data, size)[..k] == Hex(n) + CRLF + chunk + CRLF + more[..k'];
        Truncated(data[n..], size, k');
        ChunkRead(chunk, more[..k']);
        assert data == chunk + data[n..];
      }
    }
  }

  lemma EncodedIsLong(data: string, size: nat)
    requires size > 0
    ensures |Encode(data, size)| >= 5
  {
  }
}
