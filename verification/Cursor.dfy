/** The page cursor's text form: two decimal numerals in base64url without padding
    (sections 3.2 and 5 of RFC 4648). */
module Cursors {
  import opened Rows
  import opened Decimal

  datatype Cursor = Cursor(key: int, id: int)

  predicate Int64(c: Cursor) {
    MIN_INT64 <= c.key <= MAX_INT64 && MIN_INT64 <= c.id <= MAX_INT64
  }

  // ---- base64url -----------------------------------------------------------

  newtype sextet = x: int | 0 <= x < 64

  function Letter(x: sextet): byte {
    if x < 26 then x as byte + 65
    else if x < 52 then x as byte + 71
    else if x < 62 then x as byte - 4
    else if x == 62 then 45
    else 95
  }

  function Sextet(c: byte): Option<sextet> {
    if 65 <= c <= 90 then Some((c - 65) as sextet)
    else if 97 <= c <= 122 then Some((c - 71) as sextet)
    else if 48 <= c <= 57 then Some((c + 4) as sextet)
    else if c == 45 then Some(62)
    else if c == 95 then Some(63)
    else None
  }

  function Split3(a: byte, b: byte, c: byte): seq<sextet> {
    [(a / 4) as sextet, (a % 4 * 16 + b / 16) as sextet, (b % 16 * 4 + c / 64) as sextet, (c % 64) as sextet]
  }

  /** Three bytes to four letters; one or two bytes left over to two or three. */
  function ToSextets(s: bytes): seq<sextet> {
    if |s| == 0 then []
    else if |s| == 1 then Split3(s[0], 0, 0)[..2]
    else if |s| == 2 then Split3(s[0], s[1], 0)[..3]
    else Split3(s[0], s[1], s[2]) + ToSextets(s[3..])
  }

  /** One letter left over is malformed; bits left over are dropped unread. */
  function FromSextets(x: seq<sextet>): Option<bytes> {
    if |x| == 0 then Some([])
    else if |x| == 1 then None
    else
      var a := (x[0] as int * 4 + x[1] as int / 16) as byte;
      if |x| == 2 then Some([a]) else
      var b := (x[1] as int % 16 * 16 + x[2] as int / 4) as byte;
      if |x| == 3 then Some([a, b]) else
      var c := (x[2] as int % 4 * 64 + x[3] as int) as byte;
      match FromSextets(x[4..])
      case None => None
      case Some(rest) => Some([a, b, c] + rest)
  }

  function Spell(x: seq<sextet>): bytes {
    seq(|x|, k requires 0 <= k < |x| => Letter(x[k]))
  }

  /** Reads letters, skipping line ends as Go's decoder does. */
  function Read(s: bytes): Option<seq<sextet>> {
    if s == [] then Some([])
    else
      var front, c := Read(s[..|s| - 1]), s[|s| - 1];
      if c == 10 || c == 13 then front
      else if front.None? || Sextet(c).None? then None
      else Some(front.value + [Sextet(c).value])
  }

  function EncodeBase64(s: bytes): bytes {
    Spell(ToSextets(s))
  }

  function DecodeBase64(s: bytes): Option<bytes> {
    match Read(s)
    case None => None
    case Some(x) => FromSextets(x)
  }

  lemma Rejoin(a: byte, b: byte, c: byte)
    ensures var x := Split3(a, b, c);
            && x[0] as int * 4 + x[1] as int / 16 == a as int
            && x[1] as int % 16 * 16 + x[2] as int / 4 == b as int
            && x[2] as int % 4 * 64 + x[3] as int == c as int
  {
  }

  lemma {:induction false} SextetsRoundTrip(s: bytes)
    ensures FromSextets(ToSextets(s)) == Some(s)
  {
    var x := ToSextets(s);
    if |s| == 1 {
      Rejoin(s[0], 0, 0);
      assert x == Split3(s[0], 0, 0)[..2];
      assert s == [s[0]];
    } else if |s| == 2 {
      Rejoin(s[0], s[1], 0);
      assert x == Split3(s[0], s[1], 0)[..3];
      assert s == [s[0], s[1]];
    } else if |s| >= 3 {
      Rejoin(s[0], s[1], s[2]);
      SextetsRoundTrip(s[3..]);
      assert x[4..] == ToSextets(s[3..]);
      assert [s[0], s[1], s[2]] + s[3..] == s;
    }
  }

  lemma LetterRoundTrip(x: sextet)
    ensures Sextet(Letter(x)) == Some(x) && Letter(x) != 10 && Letter(x) != 13
  {
  }

  lemma {:induction false} SpellRoundTrip(x: seq<sextet>)
    ensures Read(Spell(x)) == Some(x)
  {
    if x != [] {
      var n := |x| - 1;
      SpellRoundTrip(x[..n]);
      assert Spell(x)[..n] == Spell(x[..n]);
      LetterRoundTrip(x[n]);
      assert x[..n] + [x[n]] == x;
    }
  }

  // ---- cursors -------------------------------------------------------------

  function EncodeCursor(c: Cursor): bytes {
    EncodeBase64(FormatInt(c.key) + [COLON] + FormatInt(c.id))
  }

  /** strings.SplitN(s, ":", 2), when there is a colon. */
  function FirstColon(s: bytes): (r: Option<nat>)
    ensures r.Some? ==> r.value < |s| && s[r.value] == COLON && COLON !in s[..r.value]
    ensures r.None? ==> COLON !in s
  {
    if s == [] then None
    else if s[0] == COLON then Some(0)
    else match FirstColon(s[1..])
      case None => None
      case Some(k) => assert s[..k + 1] == [s[0]] + s[1..][..k]; Some(k + 1)
  }

  /** Nil for whatever is malformed. */
  function DecodeCursor(s: bytes): (r: Option<Cursor>)
    ensures r.Some? ==> Int64(r.value)
  {
    match DecodeBase64(s)
    case None => None
    case Some(raw) =>
      match FirstColon(raw)
      case None => None
      case Some(k) =>
        match (ParseInt(raw[..k]), ParseInt(raw[k + 1..]))
        case (Some(key), Some(id)) => Some(Cursor(key, id))
        case _ => None
  }

  /** Every cursor of two int64, negative ones too, is read back as it was written. */
  lemma CursorRoundTrip(c: Cursor)
    requires Int64(c)
    ensures DecodeCursor(EncodeCursor(c)) == Some(c)
  {
    var key, id := FormatInt(c.key), FormatInt(c.id);
    var raw := key + [COLON] + id;
    SextetsRoundTrip(raw);
    SpellRoundTrip(ToSextets(raw));
    FormatHasNoColon(c.key);
    assert raw[|key|] == COLON;
    var k := FirstColon(raw).value;
    assert forall j | 0 <= j < |key| :: raw[j] == key[j] && key[j] in key;
    assert forall j | 0 <= j < k :: raw[j] == raw[..k][j] && raw[..k][j] in raw[..k];
    assert k == |key|;
    assert raw[..k] == key && raw[k + 1..] == id;
    ParseFormat(c.key);
    ParseFormat(c.id);
  }

  /** The text needs no escaping in a query string. */
  lemma CursorIsUrlSafe(c: Cursor)
    ensures forall b | b in EncodeCursor(c) :: IsDigit(b) || 65 <= b <= 90 || 97 <= b <= 122 || b == 45 || b == 95
  {
  }

  lemma CursorsDiffer(c: Cursor, d: Cursor)
    requires Int64(c) && Int64(d) && EncodeCursor(c) == EncodeCursor(d)
    ensures c == d
  {
    CursorRoundTrip(c);
    CursorRoundTrip(d);
  }
}
