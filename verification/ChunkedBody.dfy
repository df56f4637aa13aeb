/** Reading a chunked HTTP body (section 7.1 of RFC 9112) from a stream that hands out
    its bytes in any portions. */
module ChunkedBody {
  import opened Prelude

  type byte = n: int | 0 <= n < 256
  type bytes = seq<byte>

  const MAX_RAW_BODY_BYTES := 2 * 1024 * 1024
  const MAX_HEADER_BYTES := 64 * 1024
  const MAX_LINE := 128
  /** The stream's own limit for a line. */
  const LIMIT := MAX_HEADER_BYTES + 1

  const LF: byte := 10
  const CR: byte := 13
  const SEMICOLON: byte := 59
  const CRLF: bytes := [CR, LF]

  datatype BodyError = ProviderUnavailable | BodyTooLarge | StreamFailed

  // ----- Lines and sizes -----------------------------------------------------------------

  /** Up to and with the first line feed, or everything. */
  function FirstLine(data: bytes): (line: bytes)
    ensures line <= data && (data != [] ==> line != [])
  {
    if data == [] then [] else if data[0] == LF then [LF] else [data[0]] + FirstLine(data[1..])
  }

  predicate Overruns(line: bytes) {
    |line| > LIMIT + if line != [] && line[|line| - 1] == LF then 1 else 0
  }

  predicate EndsInCrlf(line: bytes) { |line| >= 2 && line[|line| - 2..] == CRLF }

  function BeforeSemicolon(s: bytes): bytes {
    if s == [] || s[0] == SEMICOLON then [] else [s[0]] + BeforeSemicolon(s[1..])
  }

  function HexDigit(c: byte): Option<nat> {
    if 48 <= c <= 57 then Some(c - 48)
    else if 97 <= c <= 102 then Some(c - 87)
    else if 65 <= c <= 70 then Some(c - 55)
    else None
  }

  predicate IsHex(s: bytes) { s != [] && forall i :: 0 <= i < |s| ==> HexDigit(s[i]).Some? }

  function Hex(s: bytes): nat
    requires forall i :: 0 <= i < |s| ==> HexDigit(s[i]).Some?
    decreases |s|
  {
    if s == [] then 0 else 16 * Hex(s[..|s| - 1]) + HexDigit(s[|s| - 1]).value
  }

  /** The size a size line announces, if it is one. */
  function SizeOf(line: bytes): Option<nat> {
    if line == [] || |line| > MAX_LINE || !EndsInCrlf(line) then None
    else
      var raw := BeforeSemicolon(line[..|line| - 2]);
      if IsHex(raw) then Some(Hex(raw)) else None
  }

  /** A number written in base 16, most significant digit first. */
  function Written(n: nat, upper: bool): (s: bytes)
    ensures s != []
    decreases n
  {
    (if n < 16 then [] else Written(n / 16, upper)) + [DigitOf(n % 16, upper)]
  }

  function DigitOf(d: nat, upper: bool): byte
    requires d < 16
  {
    (if upper then "0123456789ABCDEF" else "0123456789abcdef")[d] as int
  }

  /** What is written is read back, in either case and after any number of zeros. */
  lemma {:induction false} WrittenIsRead(n: nat, upper: bool)
    ensures IsHex(Written(n, upper)) && Hex(Written(n, upper)) == n
    decreases n
  {
    hide HexDigit, DigitOf, Hex;
    HexNothing();
    DigitIsRead(n % 16, upper);
    if n < 16 {
      assert [] + [DigitOf(n, upper)] == [DigitOf(n, upper)];
      HexAppend([], DigitOf(n, upper));
    } else {
      WrittenIsRead(n / 16, upper);
      HexAppend(Written(n / 16, upper), DigitOf(n % 16, upper));
    }
  }

  lemma HexNothing()
    ensures Hex([]) == 0
  {
  }

  lemma DigitIsRead(d: nat, upper: bool)
    requires d < 16
    ensures HexDigit(DigitOf(d, upper)) == Some(d)
  {
  }

  lemma HexAppend(s: bytes, c: byte)
    requires (forall i :: 0 <= i < |s| ==> HexDigit(s[i]).Some?) && HexDigit(c).Some?
    ensures forall i :: 0 <= i < |s + [c]| ==> HexDigit((s + [c])[i]).Some?
    ensures Hex(s + [c]) == 16 * Hex(s) + HexDigit(c).value
  {
    hide HexDigit;
    assert (s + [c])[..|s|] == s;
  }

  lemma {:induction false} ZerosAreRead(s: bytes)
    requires IsHex(s)
    ensures IsHex([48] + s) && Hex([48] + s) == Hex(s)
    decreases |s|
  {
    var front := s[..|s| - 1];
    assert ([48] + s)[..|s|] == [48] + front;
    if front != [] {
      ZerosAreRead(front);
    } else {
      assert Hex([48]) == 16 * Hex([]) + 0;
    }
  }

  /** A size line: a number in base 16, an extension after a semicolon or none, CR and LF. */
  lemma SizeIsRead(n: nat, upper: bool, extension: bytes)
    requires extension == [] || extension[0] == 59
    requires |Written(n, upper)| + |extension| + 2 <= 128
    ensures SizeOf(Written(n, upper) + extension + [13, 10]) == Some(n)
  {
    var digits := Written(n, upper);
    var line := digits + extension + [13, 10];
    WrittenIsRead(n, upper);
    assert line[..|line| - 2] == digits + extension;
    assert line[|line| - 2..] == [13, 10];
    CutAtSemicolon(digits, extension);
  }

  /** And no other line announces a size. */
  lemma OnlySizesAreRead(line: bytes) returns (k: nat)
    requires SizeOf(line).Some?
    ensures |line| <= 128 && 0 < k <= |line| - 2 && line[|line| - 2] == 13 && line[|line| - 1] == 10
    ensures k == |line| - 2 || line[k] == 59
    ensures forall i :: 0 <= i < k ==> 48 <= line[i] <= 57 || 97 <= line[i] <= 102 || 65 <= line[i] <= 70
    ensures (forall i :: 0 <= i < k ==> HexDigit(line[i]).Some?) && SizeOf(line).value == Hex(line[..k])
  {
    var digits := BeforeSemicolon(line[..|line| - 2]);
    CutIs(line[..|line| - 2]);
    k := |digits|;
    assert line[|line| - 2..][0] == CR && line[|line| - 2..][1] == LF;
    assert forall i :: 0 <= i < k ==> line[i] == digits[i];
    assert line[..k] == digits;
  }

  lemma {:induction false} CutIs(s: bytes)
    ensures BeforeSemicolon(s) <= s
    ensures |BeforeSemicolon(s)| < |s| ==> s[|BeforeSemicolon(s)|] == 59
    decreases |s|
  {
    if s != [] && s[0] != SEMICOLON {
      CutIs(s[1..]);
      assert s == [s[0]] + s[1..];
    }
  }

  lemma {:induction false} CutAtSemicolon(digits: bytes, extension: bytes)
    requires (forall i :: 0 <= i < |digits| ==> HexDigit(digits[i]).Some?) && (extension == [] || extension[0] == 59)
    ensures BeforeSemicolon(digits + extension) == digits
    decreases |digits|
  {
    if digits == [] {
      assert digits + extension == extension;
    } else {
      CutAtSemicolon(digits[1..], extension);
      assert (digits + extension)[1..] == digits[1..] + extension;
    }
  }

  // ----- The reference: what a body decodes to ----------------------------------------------

  datatype Decoded = Decoded(body: bytes, rest: bytes)

  /** Past the trailer lines and the empty line that ends them. */
  function PastTrailers(data: bytes, seen: nat): Result<bytes, BodyError>
    decreases |data|
  {
    var line := FirstLine(data);
    if Overruns(line) then Err(StreamFailed)
    else if line == [] || seen + |line| > MAX_HEADER_BYTES then Err(ProviderUnavailable)
    else if line == CRLF then Ok(data[2..])
    else PastTrailers(data[|line|..], seen + |line|)
  }

  function Decode(data: bytes, total: nat): Result<Decoded, BodyError>
    decreases |data|
  {
    var line := FirstLine(data);
    if Overruns(line) then Err(StreamFailed)
    else if SizeOf(line).None? then Err(ProviderUnavailable)
    else
      var size, rest := SizeOf(line).value, data[|line|..];
      if total + size > MAX_RAW_BODY_BYTES then Err(BodyTooLarge)
      else if size == 0 then AtEnd(PastTrailers(rest, 0))
      else if |rest| < size then Err(ProviderUnavailable)
      else if |rest| < size + 2 then Err(StreamFailed)
      else if rest[size..size + 2] != CRLF then Err(ProviderUnavailable)
      else After(rest[..size], Decode(rest[size + 2..], total + size))
  }

  function AtEnd(r: Result<bytes, BodyError>): Result<Decoded, BodyError> {
    match r
    case Ok(rest) => Ok(Decoded([], rest))
    case Err(e) => Err(e)
  }

  function After(chunk: bytes, r: Result<Decoded, BodyError>): Result<Decoded, BodyError> {
    match r
    case Ok(d) => Ok(Decoded(chunk + d.body, d.rest))
    case Err(e) => Err(e)
  }

  // ----- The wire format -----------------------------------------------------------------------

  /** A chunk with its size line: the size, any extensions, and the line end. */
  datatype Piece = Piece(line: bytes, chunk: bytes)

  /** A whole body: chunks, the last size line, trailer lines. */
  datatype Wire = Wire(pieces: seq<Piece>, last: bytes, trailers: seq<bytes>)

  predicate IsLine(line: bytes) { line != [] && FirstLine(line) == line && line[|line| - 1] == LF }

  predicate IsSizeLine(line: bytes, size: nat) { IsLine(line) && SizeOf(line) == Some(size) }

  function SumOf(pieces: seq<Piece>): nat {
    if pieces == [] then 0 else |pieces[0].chunk| + SumOf(pieces[1..])
  }

  function BytesOf(lines: seq<bytes>): nat {
    if lines == [] then 0 else |lines[0]| + BytesOf(lines[1..])
  }

  /** Every chunk under a size line that announces it, and everything within bounds. */
  ghost predicate Sound(w: Wire, total: nat) {
    && (forall i :: 0 <= i < |w.pieces| ==> w.pieces[i].chunk != [] && IsSizeLine(w.pieces[i].line, |w.pieces[i].chunk|))
    && IsSizeLine(w.last, 0)
    && (forall i :: 0 <= i < |w.trailers| ==> IsLine(w.trailers[i]) && w.trailers[i] != CRLF)
    && total + SumOf(w.pieces) <= MAX_RAW_BODY_BYTES
    && BytesOf(w.trailers) + 2 <= MAX_HEADER_BYTES
  }

  function Spell(w: Wire): bytes
    decreases |w.pieces|
  {
    if w.pieces == [] then w.last + SpellLines(w.trailers) + CRLF
    else w.pieces[0].line + w.pieces[0].chunk + CRLF + Spell(w.(pieces := w.pieces[1..]))
  }

  function SpellLines(lines: seq<bytes>): bytes {
    if lines == [] then [] else lines[0] + SpellLines(lines[1..])
  }

  function BodyOf(pieces: seq<Piece>): bytes {
    if pieces == [] then [] else pieces[0].chunk + BodyOf(pieces[1..])
  }

  lemma {:induction false} FirstLineOf(line: bytes, rest: bytes)
    requires IsLine(line)
    ensures FirstLine(line + rest) == line
    decreases |line|
  {
    if line[0] != LF {
      assert (line + rest)[1..] == line[1..] + rest;
      assert line[1..] != [];
      FirstLineOf(line[1..], rest);
    } else {
      assert line == [LF];
    }
  }

  lemma {:induction false} FirstLineIsLine(data: bytes)
    requires FirstLine(data) != [] && FirstLine(data)[|FirstLine(data)| - 1] == LF
    ensures IsLine(FirstLine(data))
    decreases |data|
  {
    if data[0] != LF {
      FirstLineIsLine(data[1..]);
      assert FirstLine(data)[1..] == FirstLine(data[1..]);
    }
  }

  // ----- Every sound wire decodes to its data ---------------------------------------------------

  lemma {:induction false} TrailersPass(lines: seq<bytes>, rest: bytes, seen: nat)
    requires forall i :: 0 <= i < |lines| ==> IsLine(lines[i]) && lines[i] != CRLF
    requires seen + BytesOf(lines) + 2 <= MAX_HEADER_BYTES
    ensures PastTrailers(SpellLines(lines) + CRLF + rest, seen) == Ok(rest)
    decreases |lines|
  {
    var data := SpellLines(lines) + CRLF + rest;
    if lines == [] {
      assert data == CRLF + rest;
      CrlfIsLine();
      FirstLineOf(CRLF, rest);
      assert data[2..] == rest;
    } else {
      var more := SpellLines(lines[1..]) + CRLF + rest;
      assert data == lines[0] + more;
      FirstLineOf(lines[0], more);
      assert data[|lines[0]|..] == more;
      TrailersPass(lines[1..], rest, seen + |lines[0]|);
    }
  }

  lemma CrlfIsLine()
    ensures IsLine(CRLF)
  {
    assert FirstLine(CRLF) == [CR] + FirstLine(CRLF[1..]);
    assert CRLF[1..] == [LF];
  }

  lemma ChunkDecodes(line: bytes, chunk: bytes, tail: bytes, total: nat)
    requires IsSizeLine(line, |chunk|) && chunk != [] && total + |chunk| <= MAX_RAW_BODY_BYTES
    ensures Decode(line + chunk + CRLF + tail, total) == After(chunk, Decode(tail, total + |chunk|))
  {
    hide IsSizeLine, SizeOf, FirstLine;
    var data, rest := line + chunk + CRLF + tail, chunk + CRLF + tail;
    SizeLine(line, |chunk|, rest);
    assert data == line + rest;
    assert data[|line|..] == rest;
    assert rest[..|chunk|] == chunk && rest[|chunk|..|chunk| + 2] == CRLF && rest[|chunk| + 2..] == tail;
  }

  lemma EndDecodes(line: bytes, tail: bytes, total: nat)
    requires IsSizeLine(line, 0) && total <= MAX_RAW_BODY_BYTES
    ensures Decode(line + tail, total) == AtEnd(PastTrailers(tail, 0))
  {
    hide IsSizeLine, SizeOf, FirstLine;
    SizeLine(line, 0, tail);
    assert (line + tail)[|line|..] == tail;
  }

  /** Whatever the chunk sizes, the extensions on their lines and the trailers, within
      bounds: decoding gives the concatenated chunks, and stops where the body stops. */
  lemma {:induction false} SoundWireDecodes(w: Wire, rest: bytes, total: nat)
    requires Sound(w, total)
    ensures Decode(Spell(w) + rest, total) == Ok(Decoded(BodyOf(w.pieces), rest))
    decreases |w.pieces|
  {
    hide IsSizeLine, IsLine, Decode, PastTrailers;
    if w.pieces == [] {
      assert Spell(w) + rest == w.last + (SpellLines(w.trailers) + CRLF + rest);
      EndDecodes(w.last, SpellLines(w.trailers) + CRLF + rest, total);
      TrailersPass(w.trailers, rest, 0);
    } else {
      var p, tail := w.pieces[0], w.(pieces := w.pieces[1..]);
      assert Spell(w) + rest == p.line + p.chunk + CRLF + (Spell(tail) + rest);
      ChunkDecodes(p.line, p.chunk, Spell(tail) + rest, total);
      SoundWireDecodes(tail, rest, total + |p.chunk|);
    }
  }

  lemma SizeLine(line: bytes, size: nat, rest: bytes)
    requires IsSizeLine(line, size)
    ensures FirstLine(line + rest) == line && SizeOf(line) == Some(size) && !Overruns(line)
  {
    FirstLineOf(line, rest);
  }

  // ----- Nothing else decodes ---------------------------------------------------------------------

  lemma {:induction false} PassedTrailers(data: bytes, seen: nat) returns (lines: seq<bytes>)
    requires PastTrailers(data, seen).Ok?
    ensures forall i :: 0 <= i < |lines| ==> IsLine(lines[i]) && lines[i] != CRLF
    ensures seen + BytesOf(lines) + 2 <= MAX_HEADER_BYTES
    ensures data == SpellLines(lines) + CRLF + PastTrailers(data, seen).value
    decreases |data|
  {
    hide FirstLine, IsLine, Overruns;
    var line := FirstLine(data);
    if line == CRLF {
      lines := [];
      assert data == CRLF + data[2..];
    } else {
      var more := PassedTrailers(data[|line|..], seen + |line|);
      lines := [line] + more;
      TrailerIsLine(data);
      assert data == line + data[|line|..];
      assert lines[1..] == more;
    }
  }

  /** A line that is followed by another ends in a line feed. */
  lemma TrailerIsLine(data: bytes)
    requires FirstLine(data) != [] && |FirstLine(data)| < |data|
    ensures IsLine(FirstLine(data))
  {
    ShortLineEnds(data);
    FirstLineIsLine(data);
  }

  lemma {:induction false} ShortLineEnds(data: bytes)
    requires FirstLine(data) != [] && |FirstLine(data)| < |data|
    ensures FirstLine(data)[|FirstLine(data)| - 1] == LF
    decreases |data|
  {
    if data[0] != LF {
      ShortLineEnds(data[1..]);
      assert FirstLine(data)[1..] == FirstLine(data[1..]);
    }
  }

  /** The parts of data that decodes: a size line, and either its chunk or the trailers. */
  lemma DecodeParts(data: bytes, total: nat) returns (line: bytes, chunk: bytes, tail: bytes)
    requires Decode(data, total).Ok?
    ensures IsSizeLine(line, |chunk|) && total + |chunk| <= MAX_RAW_BODY_BYTES && |tail| < |data|
    ensures if chunk == [] then data == line + tail && Decode(data, total) == AtEnd(PastTrailers(tail, 0))
      else data == line + chunk + CRLF + tail && Decode(data, total) == After(chunk, Decode(tail, total + |chunk|))
  {
    hide *;
    DecodeUnfolds(data, total);
    SizeLineIsLine(data);
    line := FirstLine(data);
    var size, rest := SizeOf(line).value, data[|line|..];
    assert data == line + rest;
    if size == 0 {
      chunk, tail := [], rest;
    } else {
      chunk, tail := rest[..size], rest[size + 2..];
      ChunkSplits(line, rest, size);
    }
  }

  lemma DecodeUnfolds(data: bytes, total: nat)
    requires Decode(data, total).Ok?
    ensures FirstLine(data) != [] && SizeOf(FirstLine(data)).Some?
    ensures
      var size, rest := SizeOf(FirstLine(data)).value, data[|FirstLine(data)|..];
      && total + size <= MAX_RAW_BODY_BYTES
      && (if size == 0 then Decode(data, total) == AtEnd(PastTrailers(rest, 0))
          else
            && size + 2 <= |rest| && rest[size..size + 2] == CRLF
            && Decode(data, total) == After(rest[..size], Decode(rest[size + 2..], total + size)))
  {
    hide FirstLine, Hex, IsHex, BeforeSemicolon, PastTrailers;
  }

  lemma ChunkSplits(line: bytes, rest: bytes, size: nat)
    requires size + 2 <= |rest| && rest[size..size + 2] == CRLF
    ensures line + rest == line + rest[..size] + CRLF + rest[size + 2..]
  {
    assert rest == rest[..size] + rest[size..size + 2] + rest[size + 2..];
  }

  lemma SpellLonger(v: Wire, line: bytes, chunk: bytes)
    ensures var w := v.(pieces := [Piece(line, chunk)] + v.pieces);
      && v == w.(pieces := w.pieces[1..]) && Spell(w) == line + chunk + CRLF + Spell(v)
      && BodyOf(w.pieces) == chunk + BodyOf(v.pieces)
  {
    var w := v.(pieces := [Piece(line, chunk)] + v.pieces);
    assert w.pieces[1..] == v.pieces;
  }

  /** What decodes is the spelling of a sound wire, with that body and that rest. */
  lemma {:induction false} DecodedWasSound(data: bytes, total: nat) returns (w: Wire)
    requires Decode(data, total).Ok?
    ensures Sound(w, total) && data == Spell(w) + Decode(data, total).value.rest
    ensures Decode(data, total).value.body == BodyOf(w.pieces)
    decreases |data|
  {
    hide IsSizeLine, IsLine, Decode, PastTrailers, Spell, Sound;
    var line, chunk, tail := DecodeParts(data, total);
    if chunk == [] {
      var lines := PassedTrailers(tail, 0);
      w := Wire([], line, lines);
      EndWire(line, lines, PastTrailers(tail, 0).value, total);
    } else {
      var v := DecodedWasSound(tail, total + |chunk|);
      SpellLonger(v, line, chunk);
      w := v.(pieces := [Piece(line, chunk)] + v.pieces);
      WireOneLonger(w, v, total);
      hide BodyOf;
      assert data == line + chunk + CRLF + Spell(v) + Decode(tail, total + |chunk|).value.rest;
    }
  }

  lemma EndWire(line: bytes, lines: seq<bytes>, rest: bytes, total: nat)
    requires IsSizeLine(line, 0) && total <= MAX_RAW_BODY_BYTES && BytesOf(lines) + 2 <= MAX_HEADER_BYTES
    requires forall i :: 0 <= i < |lines| ==> IsLine(lines[i]) && lines[i] != CRLF
    ensures Sound(Wire([], line, lines), total)
    ensures line + (SpellLines(lines) + CRLF + rest) == Spell(Wire([], line, lines)) + rest
  {
    hide IsSizeLine, IsLine, BytesOf, SpellLines;
    SpellEnd(line, lines);
    hide Spell;
    EndJoins(line, SpellLines(lines), rest);
  }

  lemma SpellEnd(line: bytes, lines: seq<bytes>)
    ensures Spell(Wire([], line, lines)) == line + SpellLines(lines) + CRLF
  {
    hide SpellLines;
  }

  lemma EndJoins(line: bytes, lines: bytes, rest: bytes)
    ensures line + (lines + CRLF + rest) == line + lines + CRLF + rest
  {
  }

  lemma WireOneLonger(w: Wire, tail: Wire, total: nat)
    requires w.pieces != [] && tail == w.(pieces := w.pieces[1..]) && Sound(tail, total + |w.pieces[0].chunk|)
    requires w.pieces[0].chunk != [] && IsSizeLine(w.pieces[0].line, |w.pieces[0].chunk|)
    ensures Sound(w, total)
  {
    hide IsSizeLine, IsLine;
    forall i | 0 <= i < |w.pieces| ensures w.pieces[i].chunk != [] && IsSizeLine(w.pieces[i].line, |w.pieces[i].chunk|) {
      if i > 0 {
        assert tail.pieces[i - 1] == w.pieces[i];
      }
    }
  }

  lemma SizeLineIsLine(data: bytes)
    requires SizeOf(FirstLine(data)).Some?
    ensures IsSizeLine(FirstLine(data), SizeOf(FirstLine(data)).value)
  {
    hide Hex, IsHex, BeforeSemicolon;
    FirstLineIsLine(data);
  }

  /** A byte stream is accepted as a body exactly when it starts with a sound wire. */
  lemma DecodesExactlyWhen(data: bytes, d: Decoded)
    ensures Decode(data, 0) == Ok(d) <==>
      exists w :: Sound(w, 0) && data == Spell(w) + d.rest && d.body == BodyOf(w.pieces)
  {
    if Decode(data, 0) == Ok(d) {
      var w := DecodedWasSound(data, 0);
    }
    if exists w :: Sound(w, 0) && data == Spell(w) + d.rest && d.body == BodyOf(w.pieces) {
      var w :| Sound(w, 0) && data == Spell(w) + d.rest && d.body == BodyOf(w.pieces);
      SoundWireDecodes(w, d.rest, 0);
    }
  }

  // ----- The reader ----------------------------------------------------------------------------

  /** A stream over bytes yet to be read. `steady` streams never time out. */
  class StreamReader {
    const steady: bool
    var left: bytes

    constructor (data: bytes, steady: bool)
      ensures left == data && this.steady == steady
    {
      left, this.steady := data, steady;
    }

    /** `read(n)`: between one and n bytes, as many as happen to be there; none at the end. */
    method Read(n: nat) returns (r: Result<bytes, BodyError>)
      requires n > 0
      modifies this
      ensures r.Ok? ==>
        && old(left) == r.value + left && |r.value| <= n && (r.value == [] <==> old(left) == [])
      ensures steady ==> r.Ok?
      ensures r.Err? ==> r.error.StreamFailed?
    {
      var fails: bool := *;
      if fails && !steady {
        return Err(StreamFailed);
      }
      var portion: nat := *;
      var most := if n < |left| then n else |left|;
      var size := if 0 < portion < most then portion else most;
      r := Ok(left[..size]);
      left := left[size..];
    }

    method ReadLine() returns (r: Result<bytes, BodyError>)
      modifies this
      ensures r.Ok? ==>
        && !Overruns(FirstLine(old(left))) && r.value == FirstLine(old(left)) && left == old(left)[|r.value|..]
      ensures r.Err? ==> r.error.StreamFailed? && (steady ==> Overruns(FirstLine(old(left))))
    {
      var fails: bool := *;
      var line := FirstLine(left);
      if Overruns(line) || (fails && !steady) {
        return Err(StreamFailed);
      }
      left := left[|line|..];
      return Ok(line);
    }

    method ReadExactly(n: nat) returns (r: Result<bytes, BodyError>)
      modifies this
      ensures r.Ok? ==> n <= |old(left)| && r.value == old(left)[..n] && left == old(left)[n..]
      ensures r.Err? ==> r.error.StreamFailed? && (steady ==> |old(left)| < n)
    {
      var fails: bool := *;
      if |left| < n || (fails && !steady) {
        return Err(StreamFailed);
      }
      r := Ok(left[..n]);
      left := left[n..];
    }
  }

  /** `_read_exact_bounded`: exactly so many bytes, however the reads are portioned. */
  method ReadExactBounded(reader: StreamReader, length: nat) returns (r: Result<bytes, BodyError>)
    modifies reader
    ensures r.Ok? ==> length <= |old(reader.left)| && r.value == old(reader.left)[..length]
    ensures r.Ok? ==> reader.left == old(reader.left)[length..]
    ensures reader.steady ==> if length <= |old(reader.left)| then r.Ok? else r == Err(ProviderUnavailable)
  {
    var chunks: bytes := [];
    var remaining := length;
    while remaining > 0
      invariant 0 <= remaining <= length && chunks + reader.left == old(reader.left) && |chunks| == length - remaining
    {
      var chunk := reader.Read(if 64 * 1024 < remaining then 64 * 1024 else remaining);
      if chunk.Err? {
        return Err(chunk.error);
      }
      if chunk.value == [] {
        return Err(ProviderUnavailable);
      }
      chunks := chunks + chunk.value;
      remaining := remaining - |chunk.value|;
    }
    assert old(reader.left)[..length] == chunks && old(reader.left)[length..] == reader.left;
    return Ok(chunks);
  }

  /** The trailer lines: discarded, but counted. */
  method SkipTrailers(reader: StreamReader) returns (failed: Option<BodyError>)
    modifies reader
    ensures failed.None? ==> PastTrailers(old(reader.left), 0) == Ok(reader.left)
    ensures failed.Some? && reader.steady ==> PastTrailers(old(reader.left), 0) == Err(failed.value)
  {
    hide FirstLine;
    var trailerBytes: nat := 0;
    while true
      invariant PastTrailers(reader.left, trailerBytes) == PastTrailers(old(reader.left), 0)
      decreases |reader.left|
    {
      var trailer := reader.ReadLine();
      if trailer.Err? {
        return Some(trailer.error);
      }
      trailerBytes := trailerBytes + |trailer.value|;
      if trailer.value == [] || trailerBytes > MAX_HEADER_BYTES {
        return Some(ProviderUnavailable);
      }
      if trailer.value == CRLF {
        return None;
      }
    }
  }

  lemma DecodeByCase(data: bytes, total: nat)
    ensures
      var line := FirstLine(data);
      && (Overruns(line) ==> Decode(data, total) == Err(StreamFailed))
      && (!Overruns(line) && SizeOf(line).None? ==> Decode(data, total) == Err(ProviderUnavailable))
      && (!Overruns(line) && SizeOf(line).Some? ==> Decode(data, total) == Sized(SizeOf(line).value, data[|line|..], total))
  {
    hide FirstLine, SizeOf, PastTrailers, Overruns;
  }

  /** What follows a size line. */
  function Sized(size: nat, rest: bytes, total: nat): Result<Decoded, BodyError> {
    if total + size > MAX_RAW_BODY_BYTES then Err(BodyTooLarge)
    else if size == 0 then AtEnd(PastTrailers(rest, 0))
    else if |rest| < size then Err(ProviderUnavailable)
    else if |rest| < size + 2 then Err(StreamFailed)
    else if rest[size..size + 2] != CRLF then Err(ProviderUnavailable)
    else After(rest[..size], Decode(rest[size + 2..], total + size))
  }

  /** One round of the loop: a chunk, or none at the end of the body. */
  method ReadPiece(reader: StreamReader, total: nat) returns (r: Result<Option<bytes>, BodyError>)
    modifies reader
    ensures r.Ok? && r.value.Some? ==>
      && total + |r.value.value| <= MAX_RAW_BODY_BYTES && |reader.left| < |old(reader.left)|
      && Decode(old(reader.left), total) == After(r.value.value, Decode(reader.left, total + |r.value.value|))
    ensures r.Ok? && r.value.None? ==> Decode(old(reader.left), total) == Ok(Decoded([], reader.left))
    ensures r.Err? && reader.steady ==> Decode(old(reader.left), total) == Err(r.error)
  {
    DecodeByCase(reader.left, total);
    hide Decode, FirstLine, SizeOf, Sized, After, Overruns;
    var line := reader.ReadLine();
    if line.Err? {
      return Err(line.error);
    }
    var size := SizeOf(line.value);
    if size.None? {
      return Err(ProviderUnavailable);
    }
    LineHasBytes(line.value);
    r := ReadSized(reader, size.value, total);
  }

  lemma LineHasBytes(line: bytes)
    requires SizeOf(line).Some?
    ensures line != []
  {
  }

  /** What a size line announces: the chunk and its end, or the trailers. */
  method ReadSized(reader: StreamReader, size: nat, total: nat) returns (r: Result<Option<bytes>, BodyError>)
    modifies reader
    ensures r.Ok? && r.value.Some? ==>
      && total + |r.value.value| <= MAX_RAW_BODY_BYTES && |reader.left| <= |old(reader.left)|
      && Sized(size, old(reader.left), total) == After(r.value.value, Decode(reader.left, total + |r.value.value|))
    ensures r.Ok? && r.value.None? ==> Sized(size, old(reader.left), total) == Ok(Decoded([], reader.left))
    ensures r.Err? && reader.steady ==> Sized(size, old(reader.left), total) == Err(r.error)
  {
    hide Decode, PastTrailers, After;
    if total + size > MAX_RAW_BODY_BYTES {
      return Err(BodyTooLarge);
    }
    if size == 0 {
      var failed := SkipTrailers(reader);
      return if failed.Some? then Err(failed.value) else Ok(None);
    }
    var chunk := ReadExactBounded(reader, size);
    if chunk.Err? {
      return Err(chunk.error);
    }
    var delimiter := reader.ReadExactly(2);
    if delimiter.Err? {
      return Err(delimiter.error);
    }
    assert delimiter.value == old(reader.left)[size..size + 2] && reader.left == old(reader.left)[size + 2..];
    if delimiter.value != CRLF {
      return Err(ProviderUnavailable);
    }
    return Ok(Some(chunk.value));
  }

  /** `_read_chunked`: on any stream, in any portions, it accepts what the reference
      accepts, and on a steady one it does exactly what the reference does. */
  method ReadChunked(reader: StreamReader) returns (r: Result<bytes, BodyError>)
    modifies reader
    ensures r.Ok? ==> Decode(old(reader.left), 0) == Ok(Decoded(r.value, reader.left)) && |r.value| <= MAX_RAW_BODY_BYTES
    ensures r.Err? && reader.steady ==> Decode(old(reader.left), 0) == Err(r.error)
  {
    hide Decode, After;
    var chunks: bytes := [];
    AfterNothing(Decode(reader.left, 0));
    while true
      invariant After(chunks, Decode(reader.left, |chunks|)) == Decode(old(reader.left), 0)
      invariant |chunks| <= MAX_RAW_BODY_BYTES
      decreases |reader.left|
    {
      var piece := ReadPiece(reader, |chunks|);
      if piece.Err? {
        AfterError(chunks, piece.error);
        return Err(piece.error);
      }
      if piece.value.None? {
        AfterAll(chunks, reader.left);
        return Ok(chunks);
      }
      AfterTwice(chunks, piece.value.value, Decode(reader.left, |chunks| + |piece.value.value|));
      chunks := chunks + piece.value.value;
    }
  }

  lemma AfterNothing(r: Result<Decoded, BodyError>)
    ensures After([], r) == r
  {
    assert r.Ok? ==> [] + r.value.body == r.value.body;
  }

  lemma AfterError(chunks: bytes, e: BodyError)
    ensures After(chunks, Err(e)) == Err(e)
  {
  }

  lemma AfterAll(chunks: bytes, rest: bytes)
    ensures After(chunks, Ok(Decoded([], rest))) == Ok(Decoded(chunks, rest))
  {
    assert chunks + [] == chunks;
  }

  lemma AfterTwice(a: bytes, b: bytes, r: Result<Decoded, BodyError>)
    ensures After(a, After(b, r)) == After(a + b, r)
  {
    if r.Ok? {
      assert a + (b + r.value.body) == a + b + r.value.body;
    }
  }
}
