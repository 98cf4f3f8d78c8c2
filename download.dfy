/** The download route: it looks up a stored file, streams its content in
    chunks, chooses the media type from the file name's extension, carries
    the percent-encoded name in Content-Disposition and maps every failure
    that is not already an HTTP error to a 500. */
module Download {
  import opened Common

  newtype byte = x: int | 0 <= x < 256

  // ---------------------------------------------------------------------
  // Media type
  // ---------------------------------------------------------------------

  const OctetStream := "application/octet-stream"
  const TextPlain := "text/plain"
  const Pdf := "application/pdf"
  const Docx := "application/vnd.openxmlformats-officedocument.wordprocessingml.document"

  /** The media type of the response, chosen by the file name's extension
      without regard to case; anything else is sent as raw bytes. */
  function ContentType(filename: string): (r: string)
    ensures r == TextPlain || r == Pdf || r == Docx || r == OctetStream
  {
    var name := Lower(filename);
    if EndsWith(name, ".txt") then TextPlain
    else if EndsWith(name, ".pdf") then Pdf
    else if EndsWith(name, ".docx") then Docx
    else OctetStream
  }

  /** Each media type is chosen exactly when the lower-cased name carries its
      extension; the extensions exclude one another, so the order of the
      tests does not matter, and only a name with none of them is sent as
      raw bytes. */
  lemma ContentTypeSpec(filename: string)
    ensures ContentType(filename) == TextPlain <==> EndsWith(Lower(filename), ".txt")
    ensures ContentType(filename) == Pdf <==> EndsWith(Lower(filename), ".pdf")
    ensures ContentType(filename) == Docx <==> EndsWith(Lower(filename), ".docx")
    ensures ContentType(filename) == OctetStream <==>
              !EndsWith(Lower(filename), ".txt") && !EndsWith(Lower(filename), ".pdf")
              && !EndsWith(Lower(filename), ".docx")
  {
    var name := Lower(filename);
    assert |TextPlain| != |Pdf| && |TextPlain| != |Docx| && |TextPlain| != |OctetStream|;
    assert |Pdf| != |Docx| && |Pdf| != |OctetStream| && |Docx| != |OctetStream|;
    if EndsWith(name, ".txt") {
      assert name[|name| - 1] == 't';
    } else if EndsWith(name, ".pdf") {
      assert name[|name| - 1] == 'f';
    }
  }

  // ---------------------------------------------------------------------
  // Chunked streaming
  // ---------------------------------------------------------------------

  const ChunkSize: nat := 4096

  /** The stored content opened as a byte stream: `read(n)` returns the next
      `n` bytes, or what is left when fewer remain. */
  class ContentStream {
    var data: seq<byte>
    var pos: nat
    var closed: bool

    predicate Valid()
      reads this
    {
      pos <= |data|
    }

    constructor(content: seq<byte>)
      ensures Valid() && data == content && pos == 0 && !closed
    {
      data := content;
      pos := 0;
      closed := false;
    }

    method Read(n: nat) returns (chunk: seq<byte>)
      requires Valid()
      modifies this
      ensures Valid()
      ensures chunk == old(data[pos..])[..if n < old(|data| - pos) then n else old(|data| - pos)]
      ensures pos == old(pos) + |chunk| && data == old(data) && closed == old(closed)
    {
      var m := if n < |data| - pos then n else |data| - pos;
      chunk := data[pos..pos + m];
      pos := pos + m;
    }

    method Close()
      modifies this
      ensures closed && data == old(data) && pos == old(pos)
    {
      closed := true;
    }
  }

  /** The bytes cut into consecutive pieces of the chunk size, the last one
      holding what is left. */
  function Chunked(d: seq<byte>): seq<seq<byte>>
    decreases |d|
  {
    if d == [] then []
    else if |d| <= ChunkSize then [d]
    else [d[..ChunkSize]] + Chunked(d[ChunkSize..])
  }

  /** The pieces laid end to end. */
  function Joined(chunks: seq<seq<byte>>): seq<byte> {
    if chunks == [] then [] else chunks[0] + Joined(chunks[1..])
  }

  /** Joining the chunks gives back the content byte for byte. */
  lemma {:induction false} ChunkedJoins(d: seq<byte>)
    ensures Joined(Chunked(d)) == d
    decreases |d|
  {
    if |d| > ChunkSize {
      ChunkedJoins(d[ChunkSize..]);
      assert Chunked(d)[1..] == Chunked(d[ChunkSize..]);
      assert d[..ChunkSize] + d[ChunkSize..] == d;
    }
  }

  /** No chunk is empty or longer than the chunk size, every chunk but the
      last is full, and there are as many chunks as the size divided by the
      chunk size, rounded up. */
  lemma {:induction false} ChunkedSizes(d: seq<byte>)
    ensures forall i :: 0 <= i < |Chunked(d)| ==> 0 < |Chunked(d)[i]| <= ChunkSize
    ensures forall i :: 0 <= i < |Chunked(d)| - 1 ==> |Chunked(d)[i]| == ChunkSize
    ensures |Chunked(d)| == (|d| + ChunkSize - 1) / ChunkSize
    decreases |d|
  {
    if |d| > ChunkSize {
      var rest := d[ChunkSize..];
      ChunkedSizes(rest);
      var c := Chunked(d);
      assert c == [d[..ChunkSize]] + Chunked(rest);
      forall i | 1 <= i < |c|
        ensures c[i] == Chunked(rest)[i - 1]
      {
      }
    }
  }

  /** One read of a chunk from non-empty remaining bytes takes the first
      piece. */
  lemma ChunkedFront(d: seq<byte>)
    requires d != []
    ensures var m := if ChunkSize < |d| then ChunkSize else |d|;
            Chunked(d) == [d[..m]] + Chunked(d[m..])
  {
    if |d| <= ChunkSize {
      assert d[..|d|] == d && d[|d|..] == [];
      assert Chunked(d[|d|..]) == [];
    }
  }

  /** What one read of at most a chunk leaves: nothing was left when it
      comes back empty, and otherwise it is the first of the chunks left. */
  lemma ReadStep(left: seq<byte>, chunk: seq<byte>)
    requires chunk == left[..if ChunkSize < |left| then ChunkSize else |left|]
    ensures chunk == [] ==> left == []
    ensures chunk != [] ==> Chunked(left) == [chunk] + Chunked(left[|chunk|..])
  {
    if left != [] {
      ChunkedFront(left);
    }
  }

  /** `file_iterator`: read chunks until a read comes back empty, then close
      the stream. The chunks are those of the bytes that were left. */
  method FileIterator(stream: ContentStream) returns (chunks: seq<seq<byte>>)
    requires stream.Valid()
    modifies stream
    ensures chunks == Chunked(old(stream.data[stream.pos..]))
    ensures stream.closed && stream.data == old(stream.data) && stream.pos == |stream.data|
  {
    ghost var rest := stream.data[stream.pos..];
    chunks := [];
    while true
      invariant stream.Valid() && stream.data == old(stream.data)
      invariant chunks + Chunked(stream.data[stream.pos..]) == Chunked(rest)
      decreases |stream.data| - stream.pos
    {
      ghost var left := stream.data[stream.pos..];
      var chunk := stream.Read(ChunkSize);
      ReadStep(left, chunk);
      if chunk == [] {
        break;
      }
      assert left[|chunk|..] == stream.data[stream.pos..];
      chunks := chunks + [chunk];
    }
    stream.Close();
  }

  // ---------------------------------------------------------------------
  // Percent-encoding of the file name
  // ---------------------------------------------------------------------

  /** The unreserved characters of section 2.3 of RFC 3986. */
  predicate Unreserved(c: char) {
    ('A' <= c <= 'Z') || ('a' <= c <= 'z') || ('0' <= c <= '9') || c == '_' || c == '.' || c == '-' || c == '~'
  }

  /** What `quote` leaves as it is with its default safe set "/". */
  predicate QuoteSafe(c: char) {
    Unreserved(c) || c == '/'
  }

  /** A character's UTF-8 encoding. */
  function Utf8(c: char): (r: seq<byte>)
    ensures 1 <= |r| <= 4
    ensures |r| == 1 <==> c as int < 0x80
    ensures |r| == 1 ==> r[0] as int == c as int
    ensures forall k :: 1 <= k < |r| ==> 0x80 <= r[k] < 0xC0
  {
    var cp := c as int;
    if cp < 0x80 then [cp as byte]
    else if cp < 0x800 then [(0xC0 + cp / 64) as byte, (0x80 + cp % 64) as byte]
    else if cp < 0x1_0000 then
      [(0xE0 + cp / 4096) as byte, (0x80 + cp / 64 % 64) as byte, (0x80 + cp % 64) as byte]
    else
      [(0xF0 + cp / 262144) as byte, (0x80 + cp / 4096 % 64) as byte,
       (0x80 + cp / 64 % 64) as byte, (0x80 + cp % 64) as byte]
  }

  /** The code point a well-formed one-character UTF-8 sequence stands for. */
  function CodePoint(b: seq<byte>): int {
    if |b| == 1 then b[0] as int
    else if |b| == 2 then (b[0] as int - 0xC0) * 64 + (b[1] as int - 0x80)
    else if |b| == 3 then (b[0] as int - 0xE0) * 4096 + (b[1] as int - 0x80) * 64 + (b[2] as int - 0x80)
    else if |b| == 4 then
      (b[0] as int - 0xF0) * 262144 + (b[1] as int - 0x80) * 4096 + (b[2] as int - 0x80) * 64 + (b[3] as int - 0x80)
    else -1
  }

  /** Decoding a character's encoding gives back its code point. */
  lemma Utf8Decodes(c: char)
    ensures CodePoint(Utf8(c)) == c as int
  {
    var cp := c as int;
    var b := Utf8(c);
    if 0x800 <= cp < 0x1_0000 {
      assert b[0] as int - 0xE0 == cp / 4096 && b[1] as int - 0x80 == cp / 64 % 64 && b[2] as int - 0x80 == cp % 64;
      Split3(cp);
    } else if 0x1_0000 <= cp {
      assert b[0] as int - 0xF0 == cp / 262144 && b[1] as int - 0x80 == cp / 4096 % 64;
      assert b[2] as int - 0x80 == cp / 64 % 64 && b[3] as int - 0x80 == cp % 64;
      Split4(cp);
    }
  }

  /** A code point is its three 6-bit groups. */
  lemma Split3(cp: nat)
    ensures cp == cp / 4096 * 4096 + cp / 64 % 64 * 64 + cp % 64
  {
    var q := cp / 64;
    assert cp == q * 64 + cp % 64;
    assert q == q / 64 * 64 + q % 64;
    assert cp / 4096 == q / 64;
  }

  /** A code point is its four 6-bit groups. */
  lemma Split4(cp: nat)
    ensures cp == cp / 262144 * 262144 + cp / 4096 % 64 * 4096 + cp / 64 % 64 * 64 + cp % 64
  {
    var q := cp / 4096;
    Split3(cp);
    assert q == q / 64 * 64 + q % 64;
    assert cp / 262144 == q / 64;
  }

  /** An upper-case hexadecimal digit. */
  function HexDigit(n: nat): (c: char)
    requires n < 16
    ensures IsHexDigit(c)
  {
    if n < 10 then ('0' as int + n) as char else ('A' as int + n - 10) as char
  }

  predicate IsHexDigit(c: char) {
    ('0' <= c <= '9') || ('A' <= c <= 'F') || ('a' <= c <= 'f')
  }

  function HexValue(c: char): (n: nat)
    requires IsHexDigit(c)
    ensures n < 16
  {
    if '0' <= c <= '9' then c as int - '0' as int
    else if 'A' <= c <= 'F' then c as int - 'A' as int + 10
    else c as int - 'a' as int + 10
  }

  /** One byte as `%XY`. */
  function PercentByte(b: byte): string {
    ['%', HexDigit(b as int / 16), HexDigit(b as int % 16)]
  }

  function QuoteChar(c: char): string {
    if QuoteSafe(c) then [c] else FlatMap(Utf8(c), PercentByte)
  }

  /** `urllib.parse.quote(s)`: safe characters are kept, every byte of the
      UTF-8 encoding of any other character becomes `%XY`. */
  function Quote(s: string): string {
    FlatMap(s, QuoteChar)
  }

  /** What an encoded name may contain: no space, quote, semicolon or
      other delimiter of a header parameter. */
  predicate Encoded(c: char) {
    QuoteSafe(c) || c == '%'
  }

  /** Percent-decoding as section 2.1 of RFC 3986 defines it, to bytes; a
      malformed escape or a character outside ASCII is refused. */
  function Unquote(t: string): Option<seq<byte>>
    decreases |t|
  {
    if t == [] then Some([])
    else if t[0] == '%' then
      if |t| >= 3 && IsHexDigit(t[1]) && IsHexDigit(t[2])
      then Prepend([(HexValue(t[1]) * 16 + HexValue(t[2])) as byte], Unquote(t[3..]))
      else None
    else if t[0] as int < 0x80 then Prepend([t[0] as int as byte], Unquote(t[1..]))
    else None
  }

  function Prepend(b: seq<byte>, o: Option<seq<byte>>): Option<seq<byte>> {
    match o
    case None => None
    case Some(x) => Some(b + x)
  }

  lemma PrependTwice(a: seq<byte>, b: seq<byte>, o: Option<seq<byte>>)
    ensures Prepend(a, Prepend(b, o)) == Prepend(a + b, o)
  {
    if o.Some? {
      assert a + (b + o.value) == (a + b) + o.value;
    }
  }

  lemma HexRoundTrip(n: nat)
    requires n < 16
    ensures HexValue(HexDigit(n)) == n
  {
  }

  /** An escape decodes to the byte it encodes. */
  lemma UnquotePercentByte(b: byte, t: string)
    ensures Unquote(PercentByte(b) + t) == Prepend([b], Unquote(t))
  {
    var e := PercentByte(b) + t;
    HexRoundTrip(b as int / 16);
    HexRoundTrip(b as int % 16);
    assert e[1] == HexDigit(b as int / 16) && e[2] == HexDigit(b as int % 16);
    assert e[3..] == t;
  }

  /** Decoding a concatenation of encoded items decodes item by item. */
  lemma {:induction false} UnquoteFlatMap<T>(xs: seq<T>, f: T -> string, g: T -> seq<byte>, rest: string)
    requires forall x, t :: Unquote(f(x) + t) == Prepend(g(x), Unquote(t))
    ensures Unquote(FlatMap(xs, f) + rest) == Prepend(FlatMap(xs, g), Unquote(rest))
    decreases |xs|
  {
    if xs == [] {
      assert FlatMap(xs, f) + rest == rest;
      if Unquote(rest).Some? {
        assert [] + Unquote(rest).value == Unquote(rest).value;
      }
    } else {
      var init := xs[..|xs| - 1];
      var x := xs[|xs| - 1];
      assert FlatMap(xs, f) + rest == FlatMap(init, f) + (f(x) + rest);
      UnquoteFlatMap(init, f, g, f(x) + rest);
      PrependTwice(FlatMap(init, g), g(x), Unquote(rest));
    }
  }

  /** A quoted character decodes to its UTF-8 encoding. */
  lemma UnquoteQuoteChar(c: char, t: string)
    ensures Unquote(QuoteChar(c) + t) == Prepend(Utf8(c), Unquote(t))
  {
    if QuoteSafe(c) {
      assert ([c] + t)[1..] == t;
    } else {
      forall b: byte, u: string
        ensures Unquote(PercentByte(b) + u) == Prepend([b], Unquote(u))
      {
        UnquotePercentByte(b, u);
      }
      UnquoteFlatMap(Utf8(c), PercentByte, (b: byte) => [b], t);
      SingletonsJoin(Utf8(c));
    }
  }

  lemma {:induction false} SingletonsJoin(b: seq<byte>)
    ensures FlatMap(b, (x: byte) => [x]) == b
  {
    if b != [] {
      SingletonsJoin(b[..|b| - 1]);
      assert b[..|b| - 1] + [b[|b| - 1]] == b;
    }
  }

  /** Percent-decoding the quoted name gives back the UTF-8 bytes of the
      name. */
  lemma UnquoteQuote(s: string)
    ensures Unquote(Quote(s)) == Some(FlatMap(s, Utf8))
  {
    forall c: char, t: string
      ensures Unquote(QuoteChar(c) + t) == Prepend(Utf8(c), Unquote(t))
    {
      UnquoteQuoteChar(c, t);
    }
    UnquoteFlatMap(s, QuoteChar, Utf8, []);
    assert Quote(s) + [] == Quote(s);
    assert FlatMap(s, Utf8) + [] == FlatMap(s, Utf8);
  }

  /** The quoted name holds only safe characters, hexadecimal digits and
      percent signs. */
  lemma QuoteEncoded(s: string)
    ensures forall i :: 0 <= i < |Quote(s)| ==> Encoded(Quote(s)[i])
  {
    forall i | 0 <= i < |Quote(s)|
      ensures Encoded(Quote(s)[i])
    {
      var ch := Quote(s)[i];
      FlatMapMember(s, QuoteChar, ch);
      var k :| 0 <= k < |s| && ch in QuoteChar(s[k]);
      QuoteCharEncoded(s[k], ch);
    }
  }

  /** One character's encoding holds only encoded characters. */
  lemma QuoteCharEncoded(c: char, ch: char)
    requires ch in QuoteChar(c)
    ensures Encoded(ch)
  {
    if !QuoteSafe(c) {
      FlatMapMember(Utf8(c), PercentByte, ch);
      var k :| 0 <= k < |Utf8(c)| && ch in PercentByte(Utf8(c)[k]);
    }
  }

  // ---------------------------------------------------------------------
  // Headers
  // ---------------------------------------------------------------------

  const DispositionPrefix := "attachment;  filename*=UTF-8''"

  /** Content-Disposition names the file in the extended parameter syntax of
      RFC 5987: charset, empty language, percent-encoded name. */
  function ContentDisposition(filename: string): string {
    DispositionPrefix + Quote(filename)
  }

  function Headers(filename: string, fileSize: string): Dict<string, string> {
    [("Content-Disposition", ContentDisposition(filename)), ("Content-Length", fileSize)]
  }

  /** After the fixed prefix the header carries nothing but the encoded name,
      which contains no delimiter and decodes to the name's UTF-8 bytes;
      Content-Length is the stored size. */
  lemma DispositionCarriesName(filename: string, fileSize: string)
    ensures Lookup(Headers(filename, fileSize), "Content-Length") == Some(fileSize)
    ensures var v := Lookup(Headers(filename, fileSize), "Content-Disposition").value;
            StartsWith(v, DispositionPrefix)
            && (forall i :: |DispositionPrefix| <= i < |v| ==> Encoded(v[i]))
            && Unquote(v[|DispositionPrefix|..]) == Some(FlatMap(filename, Utf8))
  {
    var h := Headers(filename, fileSize);
    assert h[0].0 == "Content-Disposition" && h[1].0 == "Content-Length";
    assert "Content-Disposition" != "Content-Length";
    var v := ContentDisposition(filename);
    assert Lookup(h, "Content-Disposition") == Some(v);
    assert v[|DispositionPrefix|..] == Quote(filename);
    QuoteEncoded(filename);
    forall i | |DispositionPrefix| <= i < |v|
      ensures Encoded(v[i])
    {
      assert v[i] == Quote(filename)[i - |DispositionPrefix|];
    }
    UnquoteQuote(filename);
  }

  // ---------------------------------------------------------------------
  // Looking up the file and answering
  // ---------------------------------------------------------------------

  /** A stored source file as the document holds it. */
  datatype StoredFile = StoredFile(content: Option<seq<byte>>, fileSize: Option<Value>)

  /** `get_file_source`: the stored size as text (0 when absent) and the
      content; a missing document or empty content is a FileNotFoundError. */
  function GetFileSource(found: Option<StoredFile>, fileName: string): (r: Result<(string, seq<byte>)>)
    ensures r.Ok? <==> found.Some? && found.value.content.Some? && found.value.content.value != []
    ensures r.Ok? ==> r.value.1 == found.value.content.value
  {
    if found.None? then Err("File '" + fileName + "' not found.")
    else if found.value.content.None? || found.value.content.value == [] then
      Err("Content not found for file '" + fileName + "'")
    else Ok((Str(if found.value.fileSize.Some? then found.value.fileSize.value else VNum(0)), found.value.content.value))
  }

  /** An exception raised while looking the file up. */
  datatype Raised = HttpException(status: int, detail: string) | Failure(message: string)

  /** What the database access produced: the document found, if any, or an
      exception. */
  datatype Retrieved = Found(file: Option<StoredFile>) | Raises(raised: Raised)

  datatype Response = Response(mediaType: string, headers: Dict<string, string>, body: seq<seq<byte>>)

  datatype Answer = Served(response: Response) | Refused(status: int, detail: string)

  const ErrorPrefix := "Error downloading file: "

  /** The route's answer: HTTP errors pass through, every other failure is
      a 500 naming the error, and a found file is streamed with its media
      type and headers. */
  function Answered(filename: string, lookup: Retrieved): Answer {
    match lookup
    case Raises(HttpException(status, detail)) => Refused(status, detail)
    case Raises(Failure(message)) => Refused(500, ErrorPrefix + message)
    case Found(file) =>
      match GetFileSource(file, filename)
      case Err(message) => Refused(500, ErrorPrefix + message)
      case Ok((size, content)) =>
        Served(Response(ContentType(filename), Headers(filename, size), Chunked(content)))
  }

  /** `download`: look the file up, open its content as a stream and stream
      it out chunk by chunk. */
  method DownloadRoute(filename: string, lookup: Retrieved) returns (r: Answer)
    ensures r == Answered(filename, lookup)
  {
    match lookup
    case Raises(HttpException(status, detail)) =>
      r := Refused(status, detail);
    case Raises(Failure(message)) =>
      r := Refused(500, ErrorPrefix + message);
    case Found(file) =>
      var source := GetFileSource(file, filename);
      match source
      case Err(message) =>
        r := Refused(500, ErrorPrefix + message);
      case Ok((size, content)) =>
        var stream := new ContentStream(content);
        var chunks := FileIterator(stream);
        assert content[0..] == content;
        r := Served(Response(ContentType(filename), Headers(filename, size), chunks));
  }

  /** A served file's body joins to exactly its stored content, in chunks no
      larger than the chunk size; a refusal other than a passed-through HTTP
      error is a 500; a missing file is a 500, not a 404. */
  lemma AnsweredSpec(filename: string, lookup: Retrieved)
    ensures Answered(filename, lookup).Served? <==>
              lookup.Found? && GetFileSource(lookup.file, filename).Ok?
    ensures Answered(filename, lookup).Served? ==>
              Joined(Answered(filename, lookup).response.body) == lookup.file.value.content.value
              && (forall i :: 0 <= i < |Answered(filename, lookup).response.body| ==>
                    0 < |Answered(filename, lookup).response.body[i]| <= ChunkSize)
    ensures Answered(filename, lookup).Refused? && !(lookup.Raises? && lookup.raised.HttpException?) ==>
              Answered(filename, lookup).status == 500
              && StartsWith(Answered(filename, lookup).detail, ErrorPrefix)
    ensures lookup == Found(None) ==>
              Answered(filename, lookup) == Refused(500, ErrorPrefix + "File '" + filename + "' not found.")
  {
    match lookup
    case Raises(_) =>
    case Found(file) =>
      match GetFileSource(file, filename)
      case Err(message) =>
        assert (ErrorPrefix + message)[..|ErrorPrefix|] == ErrorPrefix;
      case Ok((size, content)) =>
        ChunkedJoins(content);
        ChunkedSizes(content);
  }
}
