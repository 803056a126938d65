/**
 * A reference JSON codec for a player list, in the shape kotlinx.serialization
 * writes with its default configuration: an array of objects whose keys come
 * in declaration order, where `level`, `gear` and `cardColorIndex` are left out
 * when they hold their default value. The decoder fails (returns `None`) on
 * any text it cannot read, and a missing `id` or `name` is such a failure.
 */
module JsonCodec {
  import opened Wrappers
  import opened KotlinInt
  import opened PlayerData

  // ---------------------------------------------------------------- encoding

  /** The characters of a string literal's body: quote and backslash are escaped. */
  function Escape(s: string): string {
    if s == [] then []
    else (if s[0] == '"' || s[0] == '\\' then ['\\', s[0]] else [s[0]]) + Escape(s[1..])
  }

  /** Text without quotes or backslashes is written as it is. */
  lemma {:induction false} EscapePlain(s: string)
    requires forall i :: 0 <= i < |s| ==> s[i] != '"' && s[i] != '\\'
    ensures Escape(s) == s
  {
    if s != [] {
      EscapePlain(s[1..]);
    }
  }

  function StringText(s: string): string {
    "\"" + Escape(s) + "\""
  }

  function Key(name: string): string {
    ",\"" + name + "\":"
  }

  /** A defaulted field, written only when its value differs from the default. */
  function OptionalField(name: string, v: Int32, default: Int32): string {
    if v == default then "" else Key(name) + ToString(v)
  }

  /** The defaulted fields of a player object and its closing brace. */
  function DefaultedFieldsText(level: Int32, gear: Int32, color: Int32): string {
    OptionalField("level", level, 1) + (OptionalField("gear", gear, 0)
    + (OptionalField("cardColorIndex", color, 0) + "}"))
  }

  function PlayerText(p: Player): string {
    "{\"id\":" + (ToString(p.id) + (Key("name") + (StringText(p.name)
    + DefaultedFieldsText(p.level, p.gear, p.cardColorIndex))))
  }

  function ElementsText(ps: seq<Player>): string
    requires |ps| > 0
  {
    if |ps| == 1 then PlayerText(ps[0]) else PlayerText(ps[0]) + ("," + ElementsText(ps[1..]))
  }

  function Encode(ps: seq<Player>): (text: string)
    ensures |text| >= 2 && text[0] == '[' && text[|text| - 1] == ']'
    ensures text == "[]" <==> ps == []
  {
    if ps == [] then "[]" else "[" + ElementsText(ps) + "]"
  }

  // ---------------------------------------------------------------- decoding

  /** Each parser returns the value it read and the text left after it. */
  type Parsed<T> = Option<(T, string)>

  function Literal(lit: string, s: string): (r: Option<string>)
    ensures r.Some? <==> lit <= s
    ensures r.Some? ==> s == lit + r.value
  {
    if lit <= s then Some(s[|lit|..]) else None
  }

  /** Length of the run of decimal digits that starts the text. */
  function DigitRun(s: string): (n: nat)
    ensures n <= |s| && AllDigits(s[..n])
    ensures n < |s| ==> !IsDigit(s[n])
  {
    if s != [] && IsDigit(s[0]) then 1 + DigitRun(s[1..]) else 0
  }

  /** A run of at least one digit and the number it denotes. */
  function ParseMagnitude(s: string): (r: Parsed<nat>)
    ensures r.Some? ==> |r.value.1| < |s|
  {
    var n := DigitRun(s);
    if n == 0 then None else Some((ValueOf(s[..n]), s[n..]))
  }

  /** An optional minus sign and a run of digits whose value fits in an `Int`. */
  function ParseNumber(s: string): (r: Parsed<Int32>)
    ensures r.Some? ==> |r.value.1| < |s|
  {
    var negative := s != [] && s[0] == '-';
    var (magnitude, rest) :- ParseMagnitude(if negative then s[1..] else s);
    var v: int := if negative then 0 - magnitude else magnitude;
    if MinValue <= v <= MaxValue then Some((v, rest)) else None
  }

  /** The body of a string literal, up to and including its closing quote. */
  function ParseStringBody(s: string): (r: Parsed<string>)
    ensures r.Some? ==> |r.value.1| < |s|
  {
    if s == [] then None
    else if s[0] == '"' then Some(([], s[1..]))
    else if s[0] == '\\' then
      if |s| >= 2 && (s[1] == '"' || s[1] == '\\') then
        var (t, rest) :- ParseStringBody(s[2..]);
        Some(([s[1]] + t, rest))
      else None
    else
      var (t, rest) :- ParseStringBody(s[1..]);
      Some(([s[0]] + t, rest))
  }

  function ParseString(s: string): (r: Parsed<string>)
    ensures r.Some? ==> |r.value.1| < |s|
  {
    var body :- Literal("\"", s);
    ParseStringBody(body)
  }

  /** A defaulted field: read it when its key is there, else take the default. */
  function ParseOptionalField(name: string, default: Int32, s: string): (r: Parsed<Int32>)
    ensures r.Some? ==> |r.value.1| <= |s|
  {
    if Key(name) <= s then ParseNumber(s[|Key(name)|..]) else Some((default, s))
  }

  /** The three defaulted fields and the closing brace of a player object. */
  function ParseDefaultedFields(s: string): (r: Parsed<(Int32, Int32, Int32)>)
    ensures r.Some? ==> |r.value.1| < |s|
  {
    var (level, s1) :- ParseOptionalField("level", 1, s);
    var (gear, s2) :- ParseOptionalField("gear", 0, s1);
    var (color, s3) :- ParseOptionalField("cardColorIndex", 0, s2);
    var s4 :- Literal("}", s3);
    Some(((level, gear, color), s4))
  }

  function ParsePlayer(s: string): (r: Parsed<Player>)
    ensures r.Some? ==> |r.value.1| < |s|
  {
    var s1 :- Literal("{\"id\":", s);
    var (id, s2) :- ParseNumber(s1);
    var s3 :- Literal(Key("name"), s2);
    var (name, s4) :- ParseString(s3);
    var (fields, s5) :- ParseDefaultedFields(s4);
    Some((Player(id, name, fields.0, fields.1, fields.2), s5))
  }

  function ParseElements(s: string): (r: Parsed<seq<Player>>)
    ensures r.Some? ==> |r.value.1| < |s| && |r.value.0| > 0
    decreases |s|
  {
    var first :- ParsePlayer(s);
    var (p, rest) := first;
    if "," <= rest then
      var (ps, rest') :- ParseElements(rest[1..]);
      Some(([p] + ps, rest'))
    else Some(([p], rest))
  }

  /** The list a blob holds, or `None` where kotlinx.serialization would throw. */
  function Decode(s: string): (r: Option<seq<Player>>)
    ensures r.Some? ==> s != [] && s[0] == '['
    ensures s == "[]" ==> r == Some([])
  {
    if s == "[]" then Some([])
    else
      var s1 :- Literal("[", s);
      var (ps, s2) :- ParseElements(s1);
      var s3 :- Literal("]", s2);
      if s3 == [] then Some(ps) else None
  }

  // ---------------------------------------------------------------- round trip

  lemma {:induction false} DigitRunOf(a: string, rest: string)
    requires AllDigits(a) && (rest == [] || !IsDigit(rest[0]))
    ensures DigitRun(a + rest) == |a|
  {
    if a != [] {
      assert (a + rest)[1..] == a[1..] + rest;
      DigitRunOf(a[1..], rest);
    }
  }

  lemma ParseMagnitudeOf(m: nat, rest: string)
    requires rest == [] || !IsDigit(rest[0])
    ensures ParseMagnitude(Digits(m) + rest) == Some((m, rest))
  {
    var s := Digits(m) + rest;
    DigitRunOf(Digits(m), rest);
    assert s[..|Digits(m)|] == Digits(m);
    assert s[|Digits(m)|..] == rest;
    ValueOfDigits(m);
  }

  lemma ParseNonNegativeOf(m: nat, rest: string)
    requires m <= MaxValue && (rest == [] || !IsDigit(rest[0]))
    ensures ParseNumber(Digits(m) + rest) == Some((m, rest))
  {
    var s := Digits(m) + rest;
    assert s[0] == Digits(m)[0] && IsDigit(s[0]);
    ParseMagnitudeOf(m, rest);
  }

  lemma ParseNegativeOf(m: nat, rest: string)
    requires 0 < m <= -MinValue && (rest == [] || !IsDigit(rest[0]))
    ensures ParseNumber("-" + (Digits(m) + rest)) == Some((0 - m, rest))
  {
    var s := "-" + (Digits(m) + rest);
    assert s[1..] == Digits(m) + rest;
    ParseMagnitudeOf(m, rest);
  }

  lemma ParseNumberOf(v: Int32, rest: string)
    requires rest == [] || !IsDigit(rest[0])
    ensures ParseNumber(ToString(v) + rest) == Some((v, rest))
  {
    if v < 0 {
      var magnitude: nat := 0 - v as int;
      assert ToString(v) == "-" + Digits(magnitude);
      Regroup2("-", Digits(magnitude), rest);
      ParseNegativeOf(magnitude, rest);
    } else {
      assert ToString(v) == Digits(v);
      ParseNonNegativeOf(v, rest);
    }
  }

  /** An escaped quote or backslash in a string body reads back as that character. */
  lemma ParseEscapedStep(c: char, tail: string, u: string, rest: string)
    requires c == '"' || c == '\\'
    requires ParseStringBody(tail) == Some((u, rest))
    ensures ParseStringBody(['\\', c] + tail) == Some(([c] + u, rest))
  {
    assert (['\\', c] + tail)[2..] == tail;
  }

  /** Any other character in a string body reads back as itself. */
  lemma ParsePlainStep(c: char, tail: string, u: string, rest: string)
    requires c != '"' && c != '\\'
    requires ParseStringBody(tail) == Some((u, rest))
    ensures ParseStringBody([c] + tail) == Some(([c] + u, rest))
  {
    assert ([c] + tail)[1..] == tail;
  }

  lemma EscapeHead(t: string)
    requires t != []
    ensures Escape(t) == (if t[0] == '"' || t[0] == '\\' then ['\\', t[0]] else [t[0]]) + Escape(t[1..])
  {
  }

  lemma Regroup4(a: string, b: string, q: string, rest: string)
    ensures ((a + b) + q) + rest == a + ((b + q) + rest)
  {
  }

  lemma {:induction false} ParseStringBodyOf(t: string, rest: string)
    ensures ParseStringBody(Escape(t) + "\"" + rest) == Some((t, rest))
  {
    if t == [] {
      assert Escape(t) + "\"" + rest == "\"" + rest;
    } else {
      var head := if t[0] == '"' || t[0] == '\\' then ['\\', t[0]] else [t[0]];
      var tail := Escape(t[1..]) + "\"" + rest;
      EscapeHead(t);
      Regroup4(head, Escape(t[1..]), "\"", rest);
      ParseStringBodyOf(t[1..], rest);
      if t[0] == '"' || t[0] == '\\' {
        ParseEscapedStep(t[0], tail, t[1..], rest);
      } else {
        ParsePlainStep(t[0], tail, t[1..], rest);
      }
      assert [t[0]] + t[1..] == t;
    }
  }

  lemma ParseStringOf(t: string, rest: string)
    ensures ParseString(StringText(t) + rest) == Some((t, rest))
  {
    var s := StringText(t) + rest;
    assert s == "\"" + (Escape(t) + "\"" + rest);
    ParseStringBodyOf(t, rest);
  }

  /** A key cannot start a text whose first character is not a comma, or whose third differs from the key's. */
  lemma NotKeyPrefix(name: string, t: string)
    requires |name| > 0 && |t| > 0
    requires t[0] != ',' || (|t| > 2 && t[2] != name[0])
    ensures !(Key(name) <= t)
  {
    assert Key(name)[0] == ',' && Key(name)[2] == name[0];
  }

  lemma ParsePresentField(name: string, v: Int32, default: Int32, rest: string)
    requires rest == [] || !IsDigit(rest[0])
    ensures ParseOptionalField(name, default, Key(name) + (ToString(v) + rest)) == Some((v, rest))
  {
    var s := Key(name) + (ToString(v) + rest);
    assert Key(name) <= s;
    assert s[|Key(name)|..] == ToString(v) + rest;
    ParseNumberOf(v, rest);
  }

  lemma ParseAbsentField(name: string, default: Int32, rest: string)
    requires !(Key(name) <= rest)
    ensures ParseOptionalField(name, default, rest) == Some((default, rest))
  {
  }

  lemma Regroup2(a: string, b: string, rest: string)
    ensures (a + b) + rest == a + (b + rest)
    ensures [] + rest == rest
  {
  }

  /** A defaulted field followed by another field or the closing brace reads back its value. */
  lemma ParseOptionalFieldOf(name: string, v: Int32, default: Int32, rest: string)
    requires |name| > 0 && |rest| > 0
    requires rest[0] == '}' || (|rest| > 2 && rest[0] == ',' && rest[2] != name[0])
    ensures ParseOptionalField(name, default, OptionalField(name, v, default) + rest) == Some((v, rest))
  {
    Regroup2(Key(name), ToString(v), rest);
    if v == default {
      NotKeyPrefix(name, rest);
      ParseAbsentField(name, default, rest);
    } else {
      ParsePresentField(name, v, default, rest);
    }
  }

  /**
   * What follows an optional field is another optional field or the closing
   * brace; if neither the field nor what follows it starts with the letter
   * `avoid`, the text that starts with the field does not either.
   */
  lemma OptionalFieldStart(name: string, v: Int32, default: Int32, t: string, avoid: char)
    requires |name| > 0 && name[0] != avoid && |t| > 0
    requires t[0] == '}' || (|t| > 2 && t[0] == ',' && t[2] != avoid)
    ensures var u := OptionalField(name, v, default) + t;
      |u| > 0 && (u[0] == '}' || (|u| > 2 && u[0] == ',' && u[2] != avoid))
  {
    Regroup2(Key(name), ToString(v), t);
    if v != default {
      var k := Key(name);
      assert k[0] == ',' && k[2] == name[0] && |k| > 2;
      assert (k + (ToString(v) + t))[0] == k[0] && (k + (ToString(v) + t))[2] == k[2];
    }
  }

  /** The defaulted fields parse when each field and the closing brace do, in order. */
  lemma ParseDefaultedFieldsSteps(s: string, s1: string, s2: string, s3: string, rest: string,
                                  level: Int32, gear: Int32, color: Int32)
    requires ParseOptionalField("level", 1, s) == Some((level, s1))
    requires ParseOptionalField("gear", 0, s1) == Some((gear, s2))
    requires ParseOptionalField("cardColorIndex", 0, s2) == Some((color, s3))
    requires Literal("}", s3) == Some(rest)
    ensures ParseDefaultedFields(s) == Some(((level, gear, color), rest))
  {
  }

  lemma Regroup3(a: string, b: string, c: string, rest: string)
    ensures (a + (b + (c + "}"))) + rest == a + (b + (c + ("}" + rest)))
  {
  }

  lemma ParseDefaultedFieldsOf(level: Int32, gear: Int32, color: Int32, rest: string)
    ensures ParseDefaultedFields(DefaultedFieldsText(level, gear, color) + rest)
      == Some(((level, gear, color), rest))
  {
    var t3 := "}" + rest;
    var t2 := OptionalField("cardColorIndex", color, 0) + t3;
    var t1 := OptionalField("gear", gear, 0) + t2;
    var t0 := OptionalField("level", level, 1) + t1;
    Regroup3(OptionalField("level", level, 1), OptionalField("gear", gear, 0),
             OptionalField("cardColorIndex", color, 0), rest);
    OptionalFieldStart("cardColorIndex", color, 0, t3, 'g');
    OptionalFieldStart("cardColorIndex", color, 0, t3, 'l');
    OptionalFieldStart("gear", gear, 0, t2, 'l');
    ParseOptionalFieldOf("level", level, 1, t1);
    ParseOptionalFieldOf("gear", gear, 0, t2);
    ParseOptionalFieldOf("cardColorIndex", color, 0, t3);
    LiteralOf("}", rest);
    ParseDefaultedFieldsSteps(t0, t1, t2, t3, rest, level, gear, color);
  }

  lemma LiteralOf(lit: string, t: string)
    ensures Literal(lit, lit + t) == Some(t)
  {
    assert (lit + t)[|lit|..] == t;
  }

  /** A player object parses when each of its parts does, in order. */
  lemma ParsePlayerSteps(p: Player, s: string, t1: string, t2: string, t3: string, t4: string, rest: string)
    requires Literal("{\"id\":", s) == Some(t1)
    requires ParseNumber(t1) == Some((p.id, t2))
    requires Literal(Key("name"), t2) == Some(t3)
    requires ParseString(t3) == Some((p.name, t4))
    requires ParseDefaultedFields(t4) == Some(((p.level, p.gear, p.cardColorIndex), rest))
    ensures ParsePlayer(s) == Some((p, rest))
  {
  }

  lemma PlayerTextShape(p: Player, rest: string)
    ensures PlayerText(p) + rest
      == "{\"id\":" + (ToString(p.id) + (Key("name") + (StringText(p.name)
         + (DefaultedFieldsText(p.level, p.gear, p.cardColorIndex) + rest))))
  {
  }

  lemma ParsePlayerOf(p: Player, rest: string)
    requires |rest| > 0 && (rest[0] == ',' || rest[0] == ']')
    ensures ParsePlayer(PlayerText(p) + rest) == Some((p, rest))
  {
    var t4 := DefaultedFieldsText(p.level, p.gear, p.cardColorIndex) + rest;
    var t3 := StringText(p.name) + t4;
    var t2 := Key("name") + t3;
    var t1 := ToString(p.id) + t2;
    PlayerTextShape(p, rest);
    LiteralOf("{\"id\":", t1);
    ParseNumberOf(p.id, t2);
    LiteralOf(Key("name"), t3);
    ParseStringOf(p.name, t4);
    ParseDefaultedFieldsOf(p.level, p.gear, p.cardColorIndex, rest);
    ParsePlayerSteps(p, PlayerText(p) + rest, t1, t2, t3, t4, rest);
  }

  lemma ParseLastElement(s: string, p: Player, rest: string)
    requires ParsePlayer(s) == Some((p, rest)) && !("," <= rest)
    ensures ParseElements(s) == Some(([p], rest))
  {
  }

  lemma ParseNextElement(s: string, p: Player, tail: string, ps: seq<Player>, rest: string)
    requires ParsePlayer(s) == Some((p, tail)) && "," <= tail
    requires ParseElements(tail[1..]) == Some((ps, rest))
    ensures ParseElements(s) == Some(([p] + ps, rest))
  {
  }

  lemma Regroup(a: string, b: string, rest: string)
    ensures (a + ("," + b)) + rest == a + ("," + (b + rest))
    ensures ("," + (b + rest))[1..] == b + rest
    ensures "," <= "," + (b + rest) && ("," + (b + rest))[0] == ','
  {
  }

  lemma ElementsTextShape(ps: seq<Player>, rest: string)
    requires |ps| > 1
    ensures ElementsText(ps) + rest == PlayerText(ps[0]) + ("," + (ElementsText(ps[1..]) + rest))
    ensures ("," + (ElementsText(ps[1..]) + rest))[1..] == ElementsText(ps[1..]) + rest
    ensures "," <= "," + (ElementsText(ps[1..]) + rest) && ("," + (ElementsText(ps[1..]) + rest))[0] == ','
  {
    var a := PlayerText(ps[0]);
    var b := ElementsText(ps[1..]);
    assert ElementsText(ps) == a + ("," + b);
    Regroup(a, b, rest);
  }

  lemma SingleElement(ps: seq<Player>)
    requires |ps| == 1
    ensures ElementsText(ps) == PlayerText(ps[0]) && ps == [ps[0]]
  {
  }

  /** A list of one player parses back. */
  lemma ParseOneElementOf(ps: seq<Player>, rest: string)
    requires |ps| == 1 && |rest| > 0 && rest[0] == ']'
    ensures ParseElements(ElementsText(ps) + rest) == Some((ps, rest))
  {
    SingleElement(ps);
    ParsePlayerOf(ps[0], rest);
    ParseLastElement(PlayerText(ps[0]) + rest, ps[0], rest);
  }

  /** A longer list parses back when the list after its first player does. */
  lemma ParseMoreElementsOf(ps: seq<Player>, rest: string)
    requires |ps| > 1 && |rest| > 0 && rest[0] == ']'
    requires ParseElements(ElementsText(ps[1..]) + rest) == Some((ps[1..], rest))
    ensures ParseElements(ElementsText(ps) + rest) == Some((ps, rest))
  {
    var tail := "," + (ElementsText(ps[1..]) + rest);
    ElementsTextShape(ps, rest);
    ParsePlayerOf(ps[0], tail);
    ParseNextElement(ElementsText(ps) + rest, ps[0], tail, ps[1..], rest);
    HeadTail(ps);
  }

  lemma HeadTail(ps: seq<Player>)
    requires ps != []
    ensures [ps[0]] + ps[1..] == ps
  {
  }

  lemma {:induction false} ParseElementsOf(ps: seq<Player>, rest: string)
    requires |ps| > 0 && |rest| > 0 && rest[0] == ']'
    ensures ParseElements(ElementsText(ps) + rest) == Some((ps, rest))
  {
    if |ps| == 1 {
      ParseOneElementOf(ps, rest);
    } else {
      ParseElementsOf(ps[1..], rest);
      ParseMoreElementsOf(ps, rest);
    }
  }

  lemma DecodeSteps(s: string, t: string, ps: seq<Player>)
    requires s != "[]" && Literal("[", s) == Some(t)
    requires ParseElements(t) == Some((ps, "]"))
    ensures Decode(s) == Some(ps)
  {
  }

  /** Decoding an encoded list gives back the same players, in the same order. */
  lemma DecodeEncode(ps: seq<Player>)
    ensures Decode(Encode(ps)) == Some(ps)
  {
    if ps != [] {
      var t := ElementsText(ps) + "]";
      assert Encode(ps) == "[" + t;
      assert |PlayerText(ps[0])| > 0;
      LiteralOf("[", t);
      ParseElementsOf(ps, "]");
      DecodeSteps(Encode(ps), t, ps);
    }
  }

  // ---------------------------------------------------------------- fixed texts

  /** A text that is not JSON at all does not decode. */
  lemma DecodeNotJson()
    ensures Decode("not json") == None
  {
  }

  /** A well-formed empty array decodes to the empty list: the codec does not bound the size. */
  lemma DecodeEmptyArray()
    ensures Decode("[]") == Some([])
  {
  }

  /** An object without its required `name` does not decode. */
  lemma DecodeMissingName()
    ensures Decode("[{\"id\":1}]") == None
  {
    var t := "{\"id\":1}]";
    LiteralOf("[", t);
    ParseNumberOf(1, "}]");
    assert "{\"id\":1}]" == "{\"id\":" + (ToString(1) + "}]");
    LiteralOf("{\"id\":", ToString(1) + "}]");
    assert !(Key("name") <= "}]");
  }

  /** A player whose three game fields hold their defaults is written with only `id` and `name`. */
  lemma PlayerTextOmitsDefaults(p: Player)
    requires p == Player(p.id, p.name)
    ensures PlayerText(p) == "{\"id\":" + ToString(p.id) + Key("name") + StringText(p.name) + "}"
  {
    assert DefaultedFieldsText(p.level, p.gear, p.cardColorIndex) == "}";
  }
}
