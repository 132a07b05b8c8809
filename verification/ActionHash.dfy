/** Printing and parsing 32-byte hashes. Strings are the program's byte strings. */
module Hex {
  type Byte = b: nat | b < 256
  type Digest = d: seq<Byte> | |d| == 32 witness ZERO_HASH

  const ZERO_HASH: seq<Byte> := [0, 0, 0, 0, 0, 0, 0, 0, 0, 0, 0, 0, 0, 0, 0, 0, 0, 0, 0, 0, 0, 0, 0, 0, 0, 0, 0, 0, 0, 0, 0, 0]

  function HexDigit(n: nat): (c: char)
    requires n < 16
  {
    "0123456789abcdef"[n]
  }

  /** The "%x" format of a hash. */
  function Print(d: seq<Byte>): (s: string)
    ensures |s| == 2 * |d|
  {
    if d == [] then "" else [HexDigit(d[0] / 16), HexDigit(d[0] % 16)] + Print(d[1..])
  }

  /** The value of a hexadecimal digit, 16 for anything else. */
  function HexValue(c: char): (v: nat)
    ensures v <= 16
  {
    if '0' <= c <= '9' then (c as int) - ('0' as int)
    else if 'a' <= c <= 'f' then (c as int) - ('a' as int) + 10
    else if 'A' <= c <= 'F' then (c as int) - ('A' as int) + 10
    else 16
  }

  predicate IsBlank(c: char) {
    c == ' ' || c == '\t' || c == '\r' || c as int == 11 || c as int == 12
  }

  /** Scanning "%02x" from two characters into an int that starts at 0, cut to a byte: a lone digit counts, blanks are
      skipped, a sign is accepted, and a failed scan leaves 0. */
  function ScanByte(c1: char, c2: char): Byte {
    var low := if HexValue(c2) < 16 then HexValue(c2) else 0;
    if HexValue(c1) < 16 then (if HexValue(c2) < 16 then 16 * HexValue(c1) + HexValue(c2) else HexValue(c1))
    else if IsBlank(c1) || c1 == '+' then low
    else if c1 == '-' then (256 - low) % 256
    else 0
  }

  function TrimPrefix(h: string): string {
    if |h| >= 7 && h[..7] == "sha256:" then h[7..] else h
  }

  /** hexToHash; its callers ignore the error and use the zero hash. */
  function Parse(h: string): Digest {
    var t := TrimPrefix(h);
    if |t| < 64 then ZERO_HASH else seq(32, i requires 0 <= i < 32 => ScanByte(t[2 * i], t[2 * i + 1]))
  }

  method ParseInto(h: string) returns (out: array<Byte>, ok: bool)
    ensures fresh(out) && out.Length == 32 && out[..] == Parse(h)
    ensures ok == (|TrimPrefix(h)| >= 64)
  {
    out := new Byte[32](_ => 0);
    var t := h;
    if |t| >= 7 && t[..7] == "sha256:" {
      t := t[7..];
    }
    if |t| < 64 {
      assert forall k | 0 <= k < 32 :: out[k] == ZERO_HASH[k];
      return out, false;
    }
    for i := 0 to 32
      invariant forall k | 0 <= k < i :: out[k] == ScanByte(t[2 * k], t[2 * k + 1])
    {
      out[i] := ScanByte(t[2 * i], t[2 * i + 1]);
    }
    ghost var parsed := Parse(h);
    assert forall k | 0 <= k < 32 :: parsed[k] == ScanByte(t[2 * k], t[2 * k + 1]);
    ok := true;
  }

  lemma {:induction false} PrintAt(d: seq<Byte>, i: nat)
    requires i < |d|
    ensures Print(d)[2 * i] == HexDigit(d[i] / 16) && Print(d)[2 * i + 1] == HexDigit(d[i] % 16)
    decreases |d|
  {
    if i > 0 {
      PrintAt(d[1..], i - 1);
      assert Print(d)[2 * i] == Print(d[1..])[2 * (i - 1)] && Print(d)[2 * i + 1] == Print(d[1..])[2 * (i - 1) + 1];
    }
  }

  lemma DigitRoundTrip(n: nat)
    requires n < 16
    ensures HexValue(HexDigit(n)) == n && HexDigit(n) != 's'
  {
  }

  lemma ScanPrinted(b: Byte)
    ensures ScanByte(HexDigit(b / 16), HexDigit(b % 16)) == b
  {
    DigitRoundTrip(b / 16);
    DigitRoundTrip(b % 16);
  }

  lemma TrimFacts(s: string)
    ensures TrimPrefix("sha256:" + s) == s
    ensures |s| > 0 && s[0] != 's' ==> TrimPrefix(s) == s
  {
    var h := "sha256:" + s;
    assert h[..7] == "sha256:" && h[7..] == s;
    assert |s| >= 7 ==> s[..7][0] == s[0] && "sha256:"[0] == 's';
  }

  lemma ParseAt(h: string, i: nat)
    requires |TrimPrefix(h)| >= 64 && i < 32
    ensures Parse(h)[i] == ScanByte(TrimPrefix(h)[2 * i], TrimPrefix(h)[2 * i + 1])
  {
  }

  lemma ParseTrimmed(h: string, d: Digest)
    requires TrimPrefix(h) == Print(d)
    ensures Parse(h) == d
  {
    var parsed := Parse(h);
    forall i | 0 <= i < 32
      ensures parsed[i] == d[i]
    {
      ParseAt(h, i);
      PrintAt(d, i);
      ScanPrinted(d[i]);
    }
  }

  /** Parsing a printed hash gives it back, with or without the "sha256:" prefix. */
  lemma ParsePrinted(d: Digest)
    ensures Parse(Print(d)) == d && Parse("sha256:" + Print(d)) == d
  {
    PrintAt(d, 0);
    DigitRoundTrip(d[0] / 16);
    TrimFacts(Print(d));
    ParseTrimmed(Print(d), d);
    ParseTrimmed("sha256:" + Print(d), d);
  }
}

/** The JSON texts the encoder writes, and how their quotes pair up. */
module JsonText {
  import Hex

  predicate IsNumberText(s: string) {
    s != "" && forall c | c in s :: c in "0123456789+-.eE"
  }

  type NumberText = s: string | IsNumberText(s) witness "0"

  datatype Json =
    | Null
    | Bool(b: bool)
    | Number(text: NumberText)
    | String(s: string)
    | Array(items: seq<Json>)
    | Object(fields: seq<Field>)

  datatype Field = Field(key: string, value: Json)

  /** One character inside a string literal: quotes, backslashes, controls, HTML characters and the two line
      separators are escaped. */
  function Escape(c: char): string {
    var n := c as int;
    if c == '"' then "\\\""
    else if c == '\\' then "\\\\"
    else if c == '\n' then "\\n"
    else if c == '\r' then "\\r"
    else if c == '\t' then "\\t"
    else if n == 8 then "\\b"
    else if n == 12 then "\\f"
    else if n < 32 || c == '<' || c == '>' || c == '&' then "\\u00" + [Hex.HexDigit(n / 16 % 16), Hex.HexDigit(n % 16)]
    else if n == 0x2028 then "\\u2028"
    else if n == 0x2029 then "\\u2029"
    else [c]
  }

  function Body(s: string): string {
    if s == "" then "" else Escape(s[0]) + Body(s[1..])
  }

  function Quoted(s: string): string {
    "\"" + Body(s) + "\""
  }

  function Encode(j: Json): string
    decreases j, 0
  {
    match j
    case Null => "null"
    case Bool(b) => if b then "true" else "false"
    case Number(text) => text
    case String(s) => Quoted(s)
    case Array(items) => "[" + EncodeItems(items) + "]"
    case Object(fields) => "{" + EncodeFields(fields) + "}"
  }

  function EncodeItems(items: seq<Json>): string
    decreases items, 1
  {
    if items == [] then ""
    else if |items| == 1 then Encode(items[0])
    else Encode(items[0]) + "," + EncodeItems(items[1..])
  }

  function EncodeFields(fields: seq<Field>): string
    decreases fields, 1
  {
    if fields == [] then ""
    else
      var field := Quoted(fields[0].key) + ":" + Encode(fields[0].value);
      if |fields| == 1 then field else field + "," + EncodeFields(fields[1..])
  }

  // ---- Quotes ----

  /** Where a reader of JSON text stands. Stuck: a bar or backslash outside a string, or an escaped bar. */
  datatype Reading = Outside | Inside | Escaped | Stuck

  function Read(q: Reading, c: char): Reading {
    match q
    case Outside => if c == '"' then Inside else if c == '|' || c == '\\' then Stuck else Outside
    case Inside => if c == '"' then Outside else if c == '\\' then Escaped else Inside
    case Escaped => if c == '|' then Stuck else Inside
    case Stuck => Stuck
  }

  function ReadAll(q: Reading, s: string): Reading
    decreases |s|
  {
    if s == "" then q else ReadAll(Read(q, s[0]), s[1..])
  }

  /** Strings are closed and no bar stands outside one. */
  predicate WellQuoted(s: string) {
    ReadAll(Outside, s) == Outside
  }

  lemma {:induction false} ReadConcat(q: Reading, s: string, t: string)
    ensures ReadAll(q, s + t) == ReadAll(ReadAll(q, s), t)
    decreases |s|
  {
    if s == "" {
      assert s + t == t;
    } else {
      assert (s + t)[1..] == s[1..] + t;
      ReadConcat(Read(q, s[0]), s[1..], t);
    }
  }

  lemma {:induction false} ReadPlain(s: string)
    requires forall c | c in s :: c != '"' && c != '|' && c != '\\'
    ensures WellQuoted(s)
    decreases |s|
  {
    if s != "" {
      assert s[0] in s && forall c | c in s[1..] :: c in s;
      ReadPlain(s[1..]);
    }
  }

  lemma ReadOne(q: Reading, c: char)
    ensures ReadAll(q, [c]) == Read(q, c)
  {
    assert [c][1..] == "";
  }

  lemma ReadTwo(q: Reading, c: char, d: char)
    ensures ReadAll(q, [c, d]) == Read(Read(q, c), d)
  {
    assert [c, d] == [c] + [d];
    ReadConcat(q, [c], [d]);
    ReadOne(q, c);
    ReadOne(Read(q, c), d);
  }

  lemma HexDigitPlain(n: nat)
    requires n < 16
    ensures Hex.HexDigit(n) != '"' && Hex.HexDigit(n) != '\\' && Hex.HexDigit(n) != '|'
  {
  }

  lemma ReadEscape(c: char)
    ensures ReadAll(Inside, Escape(c)) == Inside
  {
    var e := Escape(c);
    if |e| == 1 {
      ReadOne(Inside, c);
    } else if |e| == 2 {
      ReadTwo(Inside, e[0], e[1]);
      assert e == [e[0], e[1]];
    } else {
      HexDigitPlain(c as int / 16 % 16);
      HexDigitPlain(c as int % 16);
      assert e == [e[0], e[1]] + [e[2], e[3]] + [e[4], e[5]];
      ReadTwo(Inside, e[0], e[1]);
      ReadTwo(Inside, e[2], e[3]);
      ReadTwo(Inside, e[4], e[5]);
      ReadConcat(Inside, [e[0], e[1]] + [e[2], e[3]], [e[4], e[5]]);
      ReadConcat(Inside, [e[0], e[1]], [e[2], e[3]]);
    }
  }

  lemma {:induction false} ReadBody(s: string)
    ensures ReadAll(Inside, Body(s)) == Inside
    decreases |s|
  {
    if s != "" {
      ReadEscape(s[0]);
      ReadBody(s[1..]);
      ReadConcat(Inside, Escape(s[0]), Body(s[1..]));
    }
  }

  lemma QuotedReads(s: string)
    ensures WellQuoted(Quoted(s))
  {
    ReadOne(Outside, '"');
    ReadBody(s);
    ReadOne(Inside, '"');
    ReadConcat(Outside, "\"" + Body(s), "\"");
    ReadConcat(Outside, "\"", Body(s));
  }

  lemma Joined(s: string, t: string)
    requires WellQuoted(s) && WellQuoted(t)
    ensures WellQuoted(s + t)
  {
    ReadConcat(Outside, s, t);
  }

  /** Everything the encoder writes is well quoted. */
  lemma {:induction false} EncodeReads(j: Json)
    ensures WellQuoted(Encode(j))
    decreases j, 0
  {
    match j
    case String(s) => QuotedReads(s);
    case Array(items) =>
      ItemsRead(items);
      ReadPlain("[");
      ReadPlain("]");
      Joined("[", EncodeItems(items));
      Joined("[" + EncodeItems(items), "]");
    case Object(fields) =>
      FieldsRead(fields);
      ReadPlain("{");
      ReadPlain("}");
      Joined("{", EncodeFields(fields));
      Joined("{" + EncodeFields(fields), "}");
    case _ => ReadPlain(Encode(j));
  }

  lemma {:induction false} ItemsRead(items: seq<Json>)
    ensures WellQuoted(EncodeItems(items))
    decreases items, 1
  {
    if items != [] {
      EncodeReads(items[0]);
      if |items| > 1 {
        ItemsRead(items[1..]);
        ReadPlain(",");
        Joined(Encode(items[0]), ",");
        Joined(Encode(items[0]) + ",", EncodeItems(items[1..]));
      }
    }
  }

  lemma {:induction false} FieldsRead(fields: seq<Field>)
    ensures WellQuoted(EncodeFields(fields))
    decreases fields, 1
  {
    if fields != [] {
      var key, value := Quoted(fields[0].key), Encode(fields[0].value);
      QuotedReads(fields[0].key);
      EncodeReads(fields[0].value);
      ReadPlain(":");
      ReadPlain(",");
      Joined(key, ":");
      Joined(key + ":", value);
      if |fields| > 1 {
        FieldsRead(fields[1..]);
        Joined(key + ":" + value, ",");
        Joined(key + ":" + value + ",", EncodeFields(fields[1..]));
      }
    }
  }

  // ---- Cutting at a bar ----

  lemma {:induction false} StuckStays(s: string)
    ensures ReadAll(Stuck, s) == Stuck
    decreases |s|
  {
    if s != "" {
      StuckStays(s[1..]);
    }
  }

  /** No text ends outside both when read from outside and when read from inside a string. */
  lemma {:induction false} ParityDiffers(s: string)
    ensures !(ReadAll(Inside, s) == Outside && ReadAll(Outside, s) == Outside)
    decreases |s|
  {
    if s != "" {
      ParityDiffers(s[1..]);
      StuckStays(s[1..]);
    }
  }
}
