/** JSON text determines the value: no two values are encoded alike, wherever in a document they stand. */
module JsonValues {
  import opened JsonText
  import Hex

  // ---- Characters and strings ----

  lemma HexDigitsDiffer(m: nat, n: nat)
    requires m < 16 && n < 16 && Hex.HexDigit(m) == Hex.HexDigit(n)
    ensures m == n
  {
    Hex.DigitRoundTrip(m);
    Hex.DigitRoundTrip(n);
  }

  /** The escapes that spell out a number. */
  predicate Numeric(c: char) {
    (c as int < 32 && c != '\n' && c != '\r' && c != '\t' && c as int != 8 && c as int != 12) || c == '<' || c == '>' || c == '&'
  }

  lemma EscapeShape(c: char)
    ensures Escape(c) != "" && Escape(c)[0] != '"' && (|Escape(c)| == 1 <==> Escape(c)[0] != '\\')
    ensures |Escape(c)| == 1 ==> Escape(c) == [c]
    ensures |Escape(c)| == 1 || |Escape(c)| == 2 || (|Escape(c)| == 6 && Escape(c)[1] == 'u')
    ensures |Escape(c)| == 2 ==> Escape(c)[1] != 'u'
    ensures Numeric(c) ==> Escape(c) == "\\u00" + [Hex.HexDigit(c as int / 16 % 16), Hex.HexDigit(c as int % 16)]
    ensures |Escape(c)| == 6 && !Numeric(c) ==> Escape(c) == if c as int == 0x2028 then "\\u2028" else "\\u2029"
  {
  }

  lemma NumericDetermines(c: char, d: char)
    requires Numeric(c) && Numeric(d) && Escape(c) == Escape(d)
    ensures c == d
  {
    EscapeShape(c);
    EscapeShape(d);
    assert Escape(c)[4] == Hex.HexDigit(c as int / 16 % 16) && Escape(d)[4] == Hex.HexDigit(d as int / 16 % 16);
    assert Escape(c)[5] == Hex.HexDigit(c as int % 16) && Escape(d)[5] == Hex.HexDigit(d as int % 16);
    HexDigitsDiffer(c as int / 16 % 16, d as int / 16 % 16);
    HexDigitsDiffer(c as int % 16, d as int % 16);
    assert c as int == 16 * (c as int / 16 % 16) + c as int % 16;
    assert d as int == 16 * (d as int / 16 % 16) + d as int % 16;
  }

  /** The escapes of two characters; their second character tells them apart. */
  lemma ShortDetermines(c: char, d: char)
    requires |Escape(c)| == 2 && |Escape(d)| == 2 && Escape(c)[1] == Escape(d)[1]
    ensures c == d
  {
  }

  lemma LineSeparators(c: char)
    requires |Escape(c)| == 6
    ensures Escape(c)[2] == if Numeric(c) then '0' else '2'
    ensures !Numeric(c) ==> c as int == if Escape(c)[5] == '8' then 0x2028 else 0x2029
  {
    EscapeShape(c);
  }

  /** Equal escapes are of equal characters. */
  lemma EscapeDetermines(c: char, d: char)
    requires Escape(c) == Escape(d)
    ensures c == d
  {
    EscapeShape(c);
    if |Escape(c)| == 1 {
      EscapeShape(d);
    } else if |Escape(c)| == 2 {
      ShortDetermines(c, d);
    } else {
      LineSeparators(c);
      LineSeparators(d);
      if Numeric(c) {
        NumericDetermines(c, d);
      }
    }
  }

  /** An escape is over when its length says so. */
  lemma EscapeUnique(c: char, d: char, s: string, t: string)
    requires Escape(c) + s == Escape(d) + t
    ensures c == d && s == t
  {
    EscapeShape(c);
    EscapeShape(d);
    var u := Escape(c) + s;
    assert u[0] == Escape(c)[0] && u[0] == Escape(d)[0];
    assert |Escape(c)| > 1 ==> u[1] == Escape(c)[1];
    assert |Escape(d)| > 1 ==> u[1] == Escape(d)[1];
    assert |Escape(c)| == |Escape(d)|;
    assert Escape(c) == u[..|Escape(c)|] && Escape(d) == u[..|Escape(d)|];
    assert s == u[|Escape(c)|..] && t == u[|Escape(d)|..];
    EscapeDetermines(c, d);
  }

  lemma BodySplit(x: string, s: string)
    requires x != ""
    ensures Body(x) + ("\"" + s) == Escape(x[0]) + (Body(x[1..]) + ("\"" + s)) && x == [x[0]] + x[1..]
  {
    JoinedTwice(Escape(x[0]), Body(x[1..]), "\"" + s);
  }

  lemma JoinedTwice(a: string, b: string, c: string)
    ensures a + b + c == a + (b + c)
  {
  }

  /** A string ends at its first quote that is not escaped. */
  lemma {:induction false} BodyUnique(x: string, y: string, s: string, t: string)
    requires Body(x) + ("\"" + s) == Body(y) + ("\"" + t)
    ensures x == y && s == t
    decreases |x|
  {
    BodyStarts(x, s);
    BodyStarts(y, t);
    if x == "" || y == "" {
      DropFirst("\"", s, t);
    } else {
      BodySplit(x, s);
      BodySplit(y, t);
      EscapeUnique(x[0], y[0], Body(x[1..]) + ("\"" + s), Body(y[1..]) + ("\"" + t));
      BodyUnique(x[1..], y[1..], s, t);
    }
  }

  lemma BodyStarts(x: string, s: string)
    ensures (Body(x) + ("\"" + s))[0] == '"' <==> x == ""
    ensures x == "" ==> Body(x) + ("\"" + s) == "\"" + s
  {
    if x != "" {
      EscapeShape(x[0]);
    }
  }

  lemma QuotedOpens(x: string, s: string)
    ensures Quoted(x) + s == "\"" + (Body(x) + ("\"" + s)) && Quoted(x)[0] == '"'
  {
    Bracketed("\"", Body(x), "\"", s);
  }

  lemma QuotedUnique(x: string, y: string, s: string, t: string)
    requires Quoted(x) + s == Quoted(y) + t
    ensures x == y && s == t
  {
    QuotedOpens(x, s);
    QuotedOpens(y, t);
    DropFirst("\"", Body(x) + ("\"" + s), Body(y) + ("\"" + t));
    BodyUnique(x, y, s, t);
  }

  // ---- Values ----

  /** Where a value may end. */
  predicate Stops(s: string) {
    s == "" || s[0] == ',' || s[0] == ']' || s[0] == '}'
  }

  predicate InNumber(c: char) {
    c in "0123456789+-.eE"
  }

  lemma FigureStarts(x: string, s: string)
    requires (forall c | c in x :: InNumber(c)) && Stops(s)
    ensures if x == "" then x + s == s else (x + s)[0] == x[0] && InNumber(x[0]) && (x + s)[1..] == x[1..] + s && x == [x[0]] + x[1..]
    ensures x != "" ==> forall c | c in x[1..] :: InNumber(c)
  {
    if x != "" {
      assert x[0] in x && forall c | c in x[1..] :: c in x;
      assert (x + s)[1..] == x[1..] + s;
    }
  }

  lemma {:induction false} NumberUnique(x: string, y: string, s: string, t: string)
    requires (forall c | c in x :: InNumber(c)) && (forall c | c in y :: InNumber(c))
    requires Stops(s) && Stops(t) && x + s == y + t
    ensures x == y && s == t
    decreases |x|
  {
    FigureStarts(x, s);
    FigureStarts(y, t);
    if x != "" && y != "" {
      NumberUnique(x[1..], y[1..], s, t);
    }
  }

  datatype Kind = Nothing | Yes | No | Figure | Text | List | Record

  function KindOf(c: char): Kind {
    if c == 'n' then Nothing else if c == 't' then Yes else if c == 'f' then No else if c == '"' then Text
    else if c == '[' then List else if c == '{' then Record else Figure
  }

  function KindOfValue(j: Json): Kind {
    match j
    case Null => Nothing
    case Bool(b) => if b then Yes else No
    case Number(_) => Figure
    case String(_) => Text
    case Array(_) => List
    case Object(_) => Record
  }

  predicate StartsAs(text: string, kind: Kind) {
    text != "" && KindOf(text[0]) == kind
  }

  lemma StartsKind(j: Json)
    ensures StartsAs(Encode(j), KindOfValue(j))
  {
    match j
    case Number(text) => FigureKind(text);
    case String(x) => StringKind(x);
    case Array(items) => ListKind(items);
    case Object(fields) => RecordKind(fields);
    case _ => WordKind(j);
  }

  lemma FigureKind(text: NumberText)
    ensures StartsAs(Encode(Number(text)), Figure)
  {
    FigureGoesOn(text);
    FigureCharacter(text[0]);
  }

  lemma FigureCharacter(c: char)
    requires InNumber(c)
    ensures KindOf(c) == Figure
  {
  }

  lemma StringKind(x: string)
    ensures StartsAs(Encode(String(x)), Text)
  {
    QuotedOpens(x, []);
  }

  lemma ListKind(items: seq<Json>)
    ensures StartsAs(Encode(Array(items)), List)
  {
    ArrayOpens(items, []);
  }

  lemma RecordKind(fields: seq<Field>)
    ensures StartsAs(Encode(Object(fields)), Record)
  {
    ObjectOpens(fields, []);
  }

  lemma WordKind(j: Json)
    requires j.Null? || j.Bool?
    ensures StartsAs(Encode(j), KindOfValue(j))
  {
  }

  lemma ArrayOpens(items: seq<Json>, s: string)
    ensures Encode(Array(items)) + s == "[" + (EncodeItems(items) + ("]" + s)) && Encode(Array(items))[0] == '['
  {
    Bracketed("[", EncodeItems(items), "]", s);
  }

  lemma ObjectOpens(fields: seq<Field>, s: string)
    ensures Encode(Object(fields)) + s == "{" + (EncodeFields(fields) + ("}" + s)) && Encode(Object(fields))[0] == '{'
  {
    Bracketed("{", EncodeFields(fields), "}", s);
  }

  lemma Bracketed(l: string, x: string, r: string, s: string)
    requires |l| == 1
    ensures l + x + r + s == l + (x + (r + s)) && (l + x + r)[0] == l[0]
  {
  }

  /** The first character says what kind of value it is, and does not end one. */
  lemma Starts(j: Json, s: string)
    ensures Encode(j) != "" && (Encode(j) + s)[0] == Encode(j)[0]
    ensures KindOf(Encode(j)[0]) == KindOfValue(j) && !Stops(Encode(j) + s)
  {
    StartsKind(j);
    if j.Number? {
      FigureGoesOn(j.text);
    }
  }

  lemma FigureGoesOn(text: NumberText)
    ensures InNumber(text[0])
  {
    assert text[0] in text;
  }

  /** What follows the first of some items, or of some fields, up to the end of their list. */
  function AfterItem(items: seq<Json>, s: string): string
    requires items != []
  {
    if |items| == 1 then "]" + s else "," + (EncodeItems(items[1..]) + ("]" + s))
  }

  function AfterField(fields: seq<Field>, s: string): string
    requires fields != []
  {
    if |fields| == 1 then "}" + s else "," + (EncodeFields(fields[1..]) + ("}" + s))
  }

  lemma ItemsSplit(items: seq<Json>, s: string)
    requires items != []
    ensures EncodeItems(items) + ("]" + s) == Encode(items[0]) + AfterItem(items, s) && Stops(AfterItem(items, s))
  {
  }

  lemma FieldsSplit(fields: seq<Field>, s: string)
    requires fields != []
    ensures EncodeFields(fields) + ("}" + s) == Quoted(fields[0].key) + (":" + (Encode(fields[0].value) + AfterField(fields, s)))
    ensures Stops(AfterField(fields, s))
  {
    var key, value := Quoted(fields[0].key), Encode(fields[0].value);
    assert EncodeFields(fields) + ("}" + s) == key + ":" + value + AfterField(fields, s);
    Regroup(key, value, AfterField(fields, s));
  }

  lemma Regroup(key: string, value: string, rest: string)
    ensures key + ":" + value + rest == key + (":" + (value + rest))
  {
  }

  lemma DropFirst(c: string, s: string, t: string)
    requires |c| == 1 && c + s == c + t
    ensures s == t
  {
    assert (c + s)[1..] == s && (c + t)[1..] == t;
  }

  /** Two values encoded alike, each followed by something that ends a value, are the same, and so is what follows. */
  lemma {:induction false} EncodeUnique(a: Json, b: Json, s: string, t: string)
    requires Encode(a) + s == Encode(b) + t && Stops(s) && Stops(t)
    ensures a == b && s == t
    decreases a, 0
  {
    Starts(a, s);
    Starts(b, t);
    assert KindOfValue(a) == KindOfValue(b);
    match a
    case Number(text) => NumberUnique(text, b.text, s, t);
    case String(x) => QuotedUnique(x, b.s, s, t);
    case Array(items) =>
      ArrayOpens(items, s);
      ArrayOpens(b.items, t);
      DropFirst("[", EncodeItems(items) + ("]" + s), EncodeItems(b.items) + ("]" + t));
      ItemsUnique(items, b.items, s, t);
    case Object(fields) =>
      ObjectOpens(fields, s);
      ObjectOpens(b.fields, t);
      DropFirst("{", EncodeFields(fields) + ("}" + s), EncodeFields(b.fields) + ("}" + t));
      FieldsUnique(fields, b.fields, s, t);
    case _ =>
      assert a == b;
      SameLength(Encode(a), s, t);
  }

  lemma SameLength(x: string, s: string, t: string)
    requires x + s == x + t
    ensures s == t
  {
    assert (x + s)[|x|..] == s && (x + t)[|x|..] == t;
  }

  lemma {:induction false} ItemsUnique(x: seq<Json>, y: seq<Json>, s: string, t: string)
    requires EncodeItems(x) + ("]" + s) == EncodeItems(y) + ("]" + t)
    ensures x == y && s == t
    decreases x, 1
  {
    if x == [] || y == [] {
      ItemsEnd(x, s);
      ItemsEnd(y, t);
      DropFirst("]", s, t);
    } else {
      ItemsSplit(x, s);
      ItemsSplit(y, t);
      EncodeUnique(x[0], y[0], AfterItem(x, s), AfterItem(y, t));
      assert x == [x[0]] + x[1..] && y == [y[0]] + y[1..];
      if |x| == 1 || |y| == 1 {
        assert AfterItem(x, s)[0] == AfterItem(y, t)[0];
        DropFirst("]", s, t);
      } else {
        DropFirst(",", EncodeItems(x[1..]) + ("]" + s), EncodeItems(y[1..]) + ("]" + t));
        ItemsUnique(x[1..], y[1..], s, t);
      }
    }
  }

  lemma ItemsEnd(x: seq<Json>, s: string)
    ensures (EncodeItems(x) + ("]" + s))[0] == ']' <==> x == []
    ensures x == [] ==> EncodeItems(x) + ("]" + s) == "]" + s
  {
    if x != [] {
      ItemsSplit(x, s);
      Starts(x[0], AfterItem(x, s));
    }
  }

  lemma {:induction false} FieldsUnique(x: seq<Field>, y: seq<Field>, s: string, t: string)
    requires EncodeFields(x) + ("}" + s) == EncodeFields(y) + ("}" + t)
    ensures x == y && s == t
    decreases x, 1
  {
    if x == [] || y == [] {
      FieldsEnd(x, s);
      FieldsEnd(y, t);
      DropFirst("}", s, t);
    } else {
      FieldsSplit(x, s);
      FieldsSplit(y, t);
      FirstFieldUnique(x[0], y[0], AfterField(x, s), AfterField(y, t));
      assert x == [x[0]] + x[1..] && y == [y[0]] + y[1..];
      if |x| == 1 || |y| == 1 {
        assert AfterField(x, s)[0] == AfterField(y, t)[0];
        DropFirst("}", s, t);
      } else {
        DropFirst(",", EncodeFields(x[1..]) + ("}" + s), EncodeFields(y[1..]) + ("}" + t));
        FieldsUnique(x[1..], y[1..], s, t);
      }
    }
  }

  lemma {:induction false} FirstFieldUnique(f: Field, g: Field, s: string, t: string)
    requires Quoted(f.key) + (":" + (Encode(f.value) + s)) == Quoted(g.key) + (":" + (Encode(g.value) + t)) && Stops(s) && Stops(t)
    ensures f == g && s == t
    decreases f, 0
  {
    QuotedUnique(f.key, g.key, ":" + (Encode(f.value) + s), ":" + (Encode(g.value) + t));
    DropFirst(":", Encode(f.value) + s, Encode(g.value) + t);
    EncodeUnique(f.value, g.value, s, t);
  }

  lemma FieldsEnd(x: seq<Field>, s: string)
    ensures (EncodeFields(x) + ("}" + s))[0] == '}' <==> x == []
    ensures x == [] ==> EncodeFields(x) + ("}" + s) == "}" + s
  {
    if x != [] {
      FieldsSplit(x, s);
      assert (EncodeFields(x) + ("}" + s))[0] == '"';
    }
  }

  /** JSON text determines the value. */
  lemma EncodeDetermines(a: Json, b: Json)
    requires Encode(a) == Encode(b)
    ensures a == b
  {
    assert Encode(a) + "" == Encode(a) && Encode(b) + "" == Encode(b);
    EncodeUnique(a, b, "", "");
  }
}
