/** The sealed page cursor: JSON and its SHA-256 digest in unpadded URL-safe Base64. JSON
    text and the digest are parameters; the Base64 is the real one. */
module Cursor {
  import opened Prelude

  type byte = n: int | 0 <= n < 256
  type sextet = n: int | 0 <= n < 64

  const CURSOR_VERSION := 1
  const MAX_CURSOR_LENGTH := 4096
  const CHECKSUM_LENGTH := 32

  datatype CursorError = EmptyCursor | TooLong | Malformed | UnsupportedVersion | OtherOperation | OtherQuery

  // ----- Base64 (section 5 of RFC 4648) ------------------------------------------------

  function Char64(n: sextet): char {
    if n < 26 then 'A' + n as char
    else if n < 52 then 'a' + (n - 26) as char
    else if n < 62 then '0' + (n - 52) as char
    else if n == 62 then '-'
    else '_'
  }

  /** The decoder also takes the letters of the standard alphabet. */
  function Value64(c: char): Option<sextet> {
    if 'A' <= c <= 'Z' then Some(c as int - 'A' as int)
    else if 'a' <= c <= 'z' then Some(c as int - 'a' as int + 26)
    else if '0' <= c <= '9' then Some(c as int - '0' as int + 52)
    else if c == '-' || c == '+' then Some(62)
    else if c == '_' || c == '/' then Some(63)
    else None
  }

  lemma CharValue(n: sextet)
    ensures Value64(Char64(n)) == Some(n)
  {
  }

  function Encode64(b: seq<byte>): (s: string)
    ensures |s| == (4 * |b| + 2) / 3
  {
    if |b| == 0 then ""
    else if |b| == 1 then [Char64(b[0] / 4), Char64(b[0] % 4 * 16)]
    else if |b| == 2 then [Char64(b[0] / 4), Char64(b[0] % 4 * 16 + b[1] / 16), Char64(b[1] % 16 * 4)]
    else
      [Char64(b[0] / 4), Char64(b[0] % 4 * 16 + b[1] / 16), Char64(b[1] % 16 * 4 + b[2] / 64), Char64(b[2] % 64)]
      + Encode64(b[3..])
  }

  /** Trailing bits beyond the last whole byte are dropped, whatever they are. */
  function Decode64(s: string): Option<seq<byte>> {
    if |s| == 0 then Some([])
    else if |s| == 1 || Value64(s[0]).None? || Value64(s[1]).None? then None
    else
      var u, v := Value64(s[0]).value, Value64(s[1]).value;
      var first := u * 4 + v / 16;
      if |s| == 2 then Some([first])
      else if Value64(s[2]).None? then None
      else
        var w := Value64(s[2]).value;
        var second := v % 16 * 16 + w / 4;
        if |s| == 3 then Some([first, second])
        else if Value64(s[3]).None? || Decode64(s[4..]).None? then None
        else Some([first, second, w % 4 * 64 + Value64(s[3]).value] + Decode64(s[4..]).value)
  }

  lemma {:induction false} RoundTrip64(b: seq<byte>)
    ensures Decode64(Encode64(b)) == Some(b)
    decreases |b|
  {
    hide Char64, Value64;
    if |b| == 1 {
      CharValue(b[0] / 4);
      CharValue(b[0] % 4 * 16);
      assert b == [b[0]];
    } else if |b| == 2 {
      CharValue(b[0] / 4);
      CharValue(b[0] % 4 * 16 + b[1] / 16);
      CharValue(b[1] % 16 * 4);
      assert b == [b[0], b[1]];
    } else if |b| > 2 {
      CharValue(b[0] / 4);
      CharValue(b[0] % 4 * 16 + b[1] / 16);
      CharValue(b[1] % 16 * 4 + b[2] / 64);
      CharValue(b[2] % 64);
      RoundTrip64(b[3..]);
      assert Encode64(b)[4..] == Encode64(b[3..]);
      assert b == [b[0], b[1], b[2]] + b[3..];
    }
  }

  // ----- The cursor -----------------------------------------------------------------------

  datatype Operation = Recent | Search

  /** Microseconds since the earliest representable date, and below the latest. */
  type Instant = t: int | 0 <= t < 315_537_897_600_000_000

  type Uuid = n: int | 0 <= n < 0x1_0000_0000_0000_0000_0000_0000_0000_0000

  /** Where a page ended: the sort key and the identity of its last resource. */
  datatype Position = ByTime(observedAt: Instant, id: Uuid) | ByTitle(title: string, id: Uuid)

  datatype Payload = Payload(
    operation: Operation, fingerprint: string,
    observedFrom: Option<Instant>, observedTo: Option<Instant>, snapshotTo: Instant, position: Position)

  /** What the bytes hold as JSON. */
  datatype Loaded = NotJson | NotAnObject | Object(version: int, payload: Payload)

  datatype Codec = Codec(dumps: Payload -> seq<byte>, loads: seq<byte> -> Loaded, digest: seq<byte> -> seq<byte>) {
    /** JSON text reads back as what was written; a digest has its length. Keys, dates and
        identities take up to 400 bytes; a character takes one to twelve. */
    ghost predicate Valid() {
      && (forall p :: loads(dumps(p)) == Object(CURSOR_VERSION, p) && dumps(p) != [])
      && (forall p: Payload :: p.position.ByTime? ==> |dumps(p)| <= 12 * |p.fingerprint| + 400)
      && (forall p: Payload :: p.position.ByTitle? ==> |dumps(p)| >= |p.position.title|)
      && (forall b :: |digest(b)| == CHECKSUM_LENGTH)
    }

    function Encode(p: Payload): string {
      Encode64(dumps(p) + digest(dumps(p)))
    }

    /** A cursor string is sealed when it is the encoding of some bytes and their digest. */
    ghost predicate Seals(cursor: string, body: seq<byte>) {
      body != [] && cursor == Encode64(body + digest(body))
    }

    function Decode(cursor: string): Result<Payload, CursorError> {
      if cursor == "" then Err(EmptyCursor)
      else if |cursor| > MAX_CURSOR_LENGTH then Err(TooLong)
      else if Decode64(cursor).None? then Err(Malformed)
      else
        var packet := Decode64(cursor).value;
        if Encode64(packet) != cursor || |packet| <= CHECKSUM_LENGTH then Err(Malformed)
        else
          var body := packet[..|packet| - CHECKSUM_LENGTH];
          if packet[|packet| - CHECKSUM_LENGTH..] != digest(body) || !loads(body).Object? then Err(Malformed)
          else if loads(body).version != CURSOR_VERSION then Err(UnsupportedVersion)
          else Ok(loads(body).payload)
    }
  }

  /** A cursor is accepted exactly when it is short enough and the one canonical sealing
      of a JSON object of this version. */
  lemma DecodeExactlyWhen(codec: Codec, cursor: string, p: Payload)
    requires codec.Valid()
    ensures codec.Decode(cursor) == Ok(p) <==>
      && |cursor| <= MAX_CURSOR_LENGTH
      && exists body :: codec.Seals(cursor, body) && codec.loads(body) == Object(CURSOR_VERSION, p)
  {
    if codec.Decode(cursor) == Ok(p) {
      var packet := Decode64(cursor).value;
      var body := packet[..|packet| - CHECKSUM_LENGTH];
      assert packet == body + codec.digest(body);
      assert codec.Seals(cursor, body);
    }
    if |cursor| <= MAX_CURSOR_LENGTH
      && exists body :: codec.Seals(cursor, body) && codec.loads(body) == Object(CURSOR_VERSION, p)
    {
      var body :| codec.Seals(cursor, body) && codec.loads(body) == Object(CURSOR_VERSION, p);
      SealedDecodes(codec, cursor, body);
    }
  }

  lemma SealedDecodes(codec: Codec, cursor: string, body: seq<byte>)
    requires codec.Valid() && codec.Seals(cursor, body)
    ensures |cursor| > MAX_CURSOR_LENGTH ==> codec.Decode(cursor) == Err(TooLong)
    ensures |cursor| <= MAX_CURSOR_LENGTH && codec.loads(body).Object? && codec.loads(body).version == CURSOR_VERSION ==>
      codec.Decode(cursor) == Ok(codec.loads(body).payload)
  {
    var packet := body + codec.digest(body);
    RoundTrip64(packet);
    hide Encode64, Decode64;
    assert packet[..|packet| - CHECKSUM_LENGTH] == body;
    assert packet[|packet| - CHECKSUM_LENGTH..] == codec.digest(body);
    assert cursor != "" by {
      LongEnough(packet);
    }
  }

  lemma LongEnough(b: seq<byte>)
    requires b != []
    ensures Encode64(b) != ""
  {
  }

  /** A cursor that was handed out is taken back unchanged, exactly when it fits. */
  lemma CursorRoundTrip(codec: Codec, p: Payload)
    requires codec.Valid()
    ensures codec.Decode(codec.Encode(p))
      == if |codec.Encode(p)| <= MAX_CURSOR_LENGTH then Ok(p) else Err(TooLong)
  {
    SealedDecodes(codec, codec.Encode(p), codec.dumps(p));
  }

  /** It fits exactly when the JSON text has at most 3040 bytes. */
  lemma CursorFitsExactlyWhen(codec: Codec, p: Payload)
    requires codec.Valid()
    ensures |codec.Encode(p)| <= MAX_CURSOR_LENGTH <==> |codec.dumps(p)| <= 3040
  {
  }
}
