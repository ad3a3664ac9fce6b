/**
 A connection that delivers an arbitrary byte stream in arbitrary chunks, and the buffered
 line scanner that the query/response probers put on top of it.

 The scanner keeps the buffer arithmetic of Go's bufio.Scanner (shift, grow, token limit),
 because the amount it reads ahead decides what other readers of the connection can see.
 */
module LineScanner {
  import opened Wrappers

  /** A read on a connection returns at least one byte or reports the end. */
  type Chunk = c: Bytes | 0 < |c| witness [0]

  const LF: Byte := 10
  const CR: Byte := 13
  const START_BUFFER := 4096
  const MAX_TOKEN := 65536

  /** How the incoming stream ends: closed by the peer, or a timeout or other error. */
  datatype Ending = Eof | ReadError

  /** What a connection has still to deliver. */
  datatype Conn = Conn(chunks: seq<Chunk>, ending: Ending)

  function Flatten(chunks: seq<Chunk>): Bytes {
    if chunks == [] then [] else chunks[0] + Flatten(chunks[1..])
  }

  /** One read into a buffer of `n` bytes; no data means that the stream has ended. */
  function Read(c: Conn, n: nat): (r: (Conn, Bytes))
    requires 0 < n
    ensures Flatten(c.chunks) == r.1 + Flatten(r.0.chunks)
    ensures |r.1| <= n && (r.1 == [] <==> c.chunks == []) && r.0.ending == c.ending
  {
    if c.chunks == [] then (c, [])
    else
      var first := c.chunks[0];
      if |first| <= n then (c.(chunks := c.chunks[1..]), first)
      else
        var left: Chunk := first[n..];
        assert ([left] + c.chunks[1..])[1..] == c.chunks[1..];
        (c.(chunks := [left] + c.chunks[1..]), first[..n])
  }

  /** The position of the first line feed, or the length if there is none. */
  function LineEnd(s: Bytes): (i: nat)
    ensures i <= |s| && (i < |s| ==> s[i] == LF) && forall j :: 0 <= j < i ==> s[j] != LF
  {
    if s == [] || s[0] == LF then 0 else 1 + LineEnd(s[1..])
  }

  function DropCR(line: Bytes): Bytes {
    if line != [] && line[|line| - 1] == CR then line[..|line| - 1] else line
  }

  datatype ScanError = Ended(ending: Ending) | TooLong

  /** The unread part of the buffer, its offset, the buffer size, and a sticky error. */
  datatype Scanner = Scanner(pending: Bytes, start: nat, size: nat, err: Option<ScanError>) {
    predicate Ok() {
      start + |pending| <= size <= MAX_TOKEN
    }

    predicate Full() {
      start + |pending| == size
    }

    /** Shift the data to the front, then grow the buffer, when there is no room to read. */
    function MakeRoom(): (s: Scanner)
      requires Ok()
      ensures s.Ok() && s.pending == pending && s.err == err
      ensures s.Full() ==> |s.pending| == MAX_TOKEN
    {
      var s := if 0 < start && (start + |pending| == size || size / 2 < start) then this.(start := 0) else this;
      if !s.Full() || MAX_TOKEN <= s.size then s
      else
        var doubled := if 2 * s.size < MAX_TOKEN then 2 * s.size else MAX_TOKEN;
        s.(start := 0, size := if s.size == 0 then START_BUFFER else doubled)
    }
  }

  const NEW_SCANNER := Scanner([], 0, 0, None)

  function Unread(s: Scanner, c: Conn): Bytes {
    s.pending + Flatten(c.chunks)
  }

  /** Read into the free part of the buffer, or record how the stream ended. */
  function Refill(s: Scanner, c: Conn): (r: (Scanner, Conn))
    requires s.Ok() && !s.Full() && s.err.None?
    ensures r.0.Ok() && r.1.ending == c.ending && Unread(r.0, r.1) == Unread(s, c)
    ensures if c.chunks == [] then r == (s.(err := Some(Ended(c.ending))), c)
            else r.0.err.None? && |Flatten(r.1.chunks)| < |Flatten(c.chunks)|
  {
    var (c', data) := Read(c, s.size - s.start - |s.pending|);
    if data == [] then (s.(err := Some(Ended(c.ending))), c)
    else (s.(pending := s.pending + data), c')
  }

  /** One call of Scan: the scanner and connection afterwards, and the line if there is one. */
  function Scan(s: Scanner, c: Conn): (r: (Scanner, Conn, Option<Bytes>))
    requires s.Ok()
    ensures r.0.Ok() && r.1.ending == c.ending
    ensures |Unread(r.0, r.1)| <= |Unread(s, c)|
    ensures r.2.Some? ==> |Unread(r.0, r.1)| < |Unread(s, c)|
    decreases s.err.None?, |Flatten(c.chunks)|
  {
    var i := LineEnd(s.pending);
    if i < |s.pending| then
      (s.(pending := s.pending[i + 1..], start := s.start + i + 1), c, Some(DropCR(s.pending[..i])))
    else if s.err.Some? then
      if s.pending == [] then (s.(start := 0), c, None)
      else (s.(pending := [], start := s.start + |s.pending|), c, Some(DropCR(s.pending)))
    else
      var room := s.MakeRoom();
      if room.Full() then (room.(err := Some(TooLong)), c, None)
      else
        var (s', c') := Refill(room, c);
        Scan(s', c')
  }

  // ----- plain line splitting -----

  datatype Line = Line(text: Bytes, rest: Bytes) | Last(text: Bytes) | End | Overlong

  /** The next line of a stream, with no buffer and no chunks. */
  function NextLine(u: Bytes): (l: Line)
    ensures l.Line? ==> |l.rest| < |u|
  {
    var i := LineEnd(u);
    if i < |u| && i < MAX_TOKEN then Line(DropCR(u[..i]), u[i + 1..])
    else if MAX_TOKEN <= |u| then Overlong
    else if u == [] then End
    else Last(DropCR(u))
  }

  lemma LineBefore(line: Bytes, rest: Bytes)
    requires LF !in line && |line| < MAX_TOKEN
    ensures NextLine(line + [LF] + rest) == Line(DropCR(line), rest)
  {
    var u := line + [LF] + rest;
    assert u == line + ([LF] + rest) && u[..|line|] == line && u[|line| + 1..] == rest;
    LineEndConcat(line, [LF] + rest);
    NoLineEnd(line);
  }

  /** A line that ends at CR LF is delivered without either. */
  lemma LineWithCRDelivered(text: Bytes, rest: Bytes)
    requires LF !in text && |text| + 1 < MAX_TOKEN
    ensures NextLine(text + [CR, LF] + rest) == Line(text, rest)
  {
    LineBefore(text + [CR], rest);
    assert text + [CR] + [LF] + rest == text + [CR, LF] + rest;
    assert (text + [CR])[..|text|] == text;
  }

  /** A line that ends at LF alone is delivered unchanged. */
  lemma LineDelivered(text: Bytes, rest: Bytes)
    requires LF !in text && |text| < MAX_TOKEN && (text == [] || text[|text| - 1] != CR)
    ensures NextLine(text + [LF] + rest) == Line(text, rest)
  {
    LineBefore(text, rest);
  }

  /** A last line without LF is delivered too. */
  lemma LastLineDelivered(text: Bytes, cr: bool)
    requires LF !in text && |text| + 1 < MAX_TOKEN && (cr || (text != [] && text[|text| - 1] != CR))
    ensures NextLine(text + if cr then [CR] else []) == Last(text)
  {
    var line := text + if cr then [CR] else [];
    NoLineEnd(line);
    assert DropCR(text + [CR]) == text && text + [] == text;
  }

  lemma NoLineEnd(s: Bytes)
    requires LF !in s
    ensures LineEnd(s) == |s|
  {
  }

  lemma {:induction false} LineEndConcat(s: Bytes, t: Bytes)
    ensures LineEnd(s + t) == if LineEnd(s) < |s| then LineEnd(s) else |s| + LineEnd(t)
  {
    if s == [] {
      assert s + t == t;
    } else if s[0] != LF {
      LineEndConcat(s[1..], t);
      assert (s + t)[1..] == s[1..] + t;
    }
  }

  /** Between scans: no error yet, or the stream has ended inside an unterminated last line. */
  predicate Usable(s: Scanner, c: Conn) {
    && s.Ok()
    && (s.err.Some? ==>
          && c.chunks == [] && s.err == Some(Ended(c.ending))
          && |s.pending| < MAX_TOKEN && LineEnd(s.pending) == |s.pending|)
  }

  /** What one scan must return and leave behind, given the plain line splitting of the unread stream. */
  predicate Delivers(l: Line, r: (Scanner, Conn, Option<Bytes>)) {
    match l
    case Line(text, rest) => r.2 == Some(text) && Usable(r.0, r.1) && r.0.err.None? && Unread(r.0, r.1) == rest
    case Last(text) => r.2 == Some(text) && Usable(r.0, r.1) && r.0.err.Some? && Unread(r.0, r.1) == []
    case End => r.2 == None && Usable(r.0, r.1) && r.0.err.Some? && Unread(r.0, r.1) == []
    case Overlong => r.2 == None && r.0.err == Some(TooLong)
  }

  /** A scan that needs no further data. */
  lemma ScanFromBuffer(s: Scanner, c: Conn)
    requires Usable(s, c) && (LineEnd(s.pending) < |s.pending| || s.err.Some?)
    ensures Delivers(NextLine(Unread(s, c)), Scan(s, c))
  {
    LineEndConcat(s.pending, Flatten(c.chunks));
    var u, i := Unread(s, c), LineEnd(s.pending);
    if i < |s.pending| {
      assert u[..i] == s.pending[..i] && u[i + 1..] == s.pending[i + 1..] + Flatten(c.chunks);
    } else {
      assert u == s.pending;
    }
  }

  /** The buffered scanner refines plain line splitting, whatever the chunks and whatever was read ahead. */
  lemma {:induction false} ScanRefinesNextLine(s: Scanner, c: Conn)
    requires Usable(s, c)
    ensures Delivers(NextLine(Unread(s, c)), Scan(s, c))
    decreases s.err.None?, |Flatten(c.chunks)|
  {
    if LineEnd(s.pending) < |s.pending| || s.err.Some? {
      ScanFromBuffer(s, c);
    } else {
      var room := s.MakeRoom();
      if room.Full() {
        LineEndConcat(s.pending, Flatten(c.chunks));
      } else {
        var (s', c') := Refill(room, c);
        ScanRefinesNextLine(s', c');
        assert Unread(s', c') == Unread(s, c);
      }
    }
  }
}
