/** The JSON texts (RFC 8259) of trees of objects and strings.

    A text is a sequence of UTF-16 code units, as in JavaScript strings. `Node` is a concrete
    syntax tree: it keeps every choice the grammar leaves open, so a text belongs to the grammar
    exactly when it is the printed form of a valid node. */
module JsonText {
  import opened Options

  type Unit = u: nat | u < 0x1_0000
  type Text = seq<Unit>

  const QUOTE: Unit := 0x22
  const COMMA: Unit := 0x2C
  const SLASH: Unit := 0x2F
  const COLON: Unit := 0x3A
  const BACKSLASH: Unit := 0x5C
  const LETTER_B: Unit := 0x62
  const LETTER_F: Unit := 0x66
  const LETTER_N: Unit := 0x6E
  const LETTER_R: Unit := 0x72
  const LETTER_T: Unit := 0x74
  const LETTER_U: Unit := 0x75
  const OPEN: Unit := 0x7B
  const CLOSE: Unit := 0x7D

  // ----- well-formed UTF-16 -----

  predicate High(u: Unit) { 0xD800 <= u <= 0xDBFF }
  predicate Low(u: Unit) { 0xDC00 <= u <= 0xDFFF }

  /** Every surrogate is half of a pair. */
  predicate WellFormed(t: Text) {
    if t == [] then true
    else if High(t[0]) then |t| > 1 && Low(t[1]) && WellFormed(t[2..])
    else !Low(t[0]) && WellFormed(t[1..])
  }

  predicate Scalar(c: nat) { c < 0xD800 || 0xE000 <= c < 0x11_0000 }

  /** UTF-16 encoding of one Unicode scalar value. */
  function Utf16(c: nat): Text
    requires Scalar(c)
  {
    if c < 0x1_0000 then [c] else [0xD800 + (c - 0x1_0000) / 0x400, 0xDC00 + (c - 0x1_0000) % 0x400]
  }

  function EncodeScalars(cs: seq<nat>): Text
    requires forall c :: c in cs ==> Scalar(c)
  {
    if cs == [] then [] else Utf16(cs[0]) + EncodeScalars(cs[1..])
  }

  /** Well-formedness means: the units encode some sequence of Unicode scalar values. */
  lemma {:induction false} WellFormedIsEncodable(t: Text) returns (cs: seq<nat>)
    requires WellFormed(t)
    ensures (forall c :: c in cs ==> Scalar(c)) && EncodeScalars(cs) == t
  {
    if t == [] {
      cs := [];
    } else {
      var width: nat, c: nat := 1, t[0];
      if High(t[0]) {
        var high: nat, low: nat := t[0], t[1];
        width, c := 2, 0x1_0000 + (high - 0xD800) * 0x400 + (low - 0xDC00);
        assert Utf16(c) == t[..2];
      }
      var rest := WellFormedIsEncodable(t[width..]);
      cs := [c] + rest;
      assert cs[1..] == rest && t == t[..width] + t[width..];
    }
  }

  lemma {:induction false} EncodableIsWellFormed(cs: seq<nat>)
    requires forall c :: c in cs ==> Scalar(c)
    ensures WellFormed(EncodeScalars(cs))
  {
    if cs != [] {
      EncodableIsWellFormed(cs[1..]);
      var first, rest := Utf16(cs[0]), EncodeScalars(cs[1..]);
      assert (first + rest)[|first|..] == rest;
    }
  }

  // ----- string literals (section 7) -----

  /** One character of a literal: itself, a two-character escape, or a \u escape. */
  datatype Char = Plain(unit: Unit) | Short(letter: Unit) | Hex(h0: Unit, h1: Unit, h2: Unit, h3: Unit)

  datatype Literal = Empty | Then(first: Char, more: Literal)

  predicate HexDigit(h: Unit) {
    0x30 <= h <= 0x39 || 0x41 <= h <= 0x46 || 0x61 <= h <= 0x66
  }

  function HexValue(h: Unit): (v: nat)
    requires HexDigit(h)
    ensures v < 16
  {
    if h <= 0x39 then h - 0x30 else if h <= 0x46 then h - 0x41 + 10 else h - 0x61 + 10
  }

  function LowerHex(v: nat): (h: Unit)
    requires v < 16
    ensures HexDigit(h) && HexValue(h) == v
  {
    if v < 10 then 0x30 + v else 0x61 + v - 10
  }

  predicate ShortLetter(letter: Unit) {
    letter in [QUOTE, BACKSLASH, SLASH, LETTER_B, LETTER_F, LETTER_N, LETTER_R, LETTER_T]
  }

  predicate ValidChar(c: Char) {
    match c
    case Plain(u) => u >= 0x20 && u != QUOTE && u != BACKSLASH
    case Short(letter) => ShortLetter(letter)
    case Hex(h0, h1, h2, h3) => HexDigit(h0) && HexDigit(h1) && HexDigit(h2) && HexDigit(h3)
  }

  predicate ValidLiteral(l: Literal) {
    l.Then? ==> ValidChar(l.first) && ValidLiteral(l.more)
  }

  function PrintChar(c: Char): (t: Text)
    ensures t != []
  {
    match c
    case Plain(u) => [u]
    case Short(letter) => [BACKSLASH, letter]
    case Hex(h0, h1, h2, h3) => [BACKSLASH, LETTER_U, h0, h1, h2, h3]
  }

  // Printing is written as "the text of x in front of `rest`", so that texts nest to the right.

  /** The characters and the closing quotation mark. */
  function CharsTo(l: Literal, rest: Text): Text {
    match l
    case Empty => [QUOTE] + rest
    case Then(c, more) => PrintChar(c) + CharsTo(more, rest)
  }

  function LiteralTo(l: Literal, rest: Text): Text {
    [QUOTE] + CharsTo(l, rest)
  }

  function DecodeChar(c: Char): Unit
    requires ValidChar(c)
  {
    match c
    case Plain(u) => u
    case Short(letter) =>
      if letter == LETTER_B then 0x08
      else if letter == LETTER_F then 0x0C
      else if letter == LETTER_N then 0x0A
      else if letter == LETTER_R then 0x0D
      else if letter == LETTER_T then 0x09
      else letter
    case Hex(h0, h1, h2, h3) =>
      var v := HexValue(h0) * 0x1000 + HexValue(h1) * 0x100 + HexValue(h2) * 0x10 + HexValue(h3);
      v
  }

  /** The string a literal stands for. */
  function Decode(l: Literal): Text
    requires ValidLiteral(l)
  {
    match l
    case Empty => []
    case Then(c, more) => [DecodeChar(c)] + Decode(more)
  }

  // ----- objects (sections 2 and 4) -----

  predicate SpaceUnit(u: Unit) {
    u == 0x20 || u == 0x09 || u == 0x0A || u == 0x0D
  }

  /** The units of the grammar, one by one: white space, and the characters of a string that stand for
      themselves (sections 2 and 7 of RFC 8259). */
  lemma UnitsAre(u: Unit)
    ensures SpaceUnit(u) <==> u in {9, 10, 13, 32}
    ensures ValidChar(Plain(u)) <==> 32 <= u && u !in {34, 92}
  {
  }

  /** The two-character escapes: of a quotation mark, a reverse solidus and a solidus, and b, f, n, r, t. */
  lemma ShortEscapesAre(u: Unit)
    ensures ValidChar(Short(u)) <==> u in {34, 92, 47, 98, 102, 110, 114, 116}
    ensures ValidChar(Short(u)) ==>
      DecodeChar(Short(u)) ==
        if u == 98 then 8 else if u == 102 then 12 else if u == 110 then 10 else if u == 114 then 13 else if u == 116 then 9 else u
  {
  }

  /** The digits 0 to 9, A to F and a to f. */
  lemma HexDigitsAre(u: Unit)
    ensures HexDigit(u) <==> 48 <= u < 58 || 65 <= u < 71 || 97 <= u < 103
    ensures HexDigit(u) ==> HexValue(u) == if u < 58 then u - 48 else if u < 71 then u - 55 else u - 87
  {
  }

  /** A \u escape stands for its four digits, the first counting most. */
  lemma HexEscapeIs(a: Unit, b: Unit, c: Unit, d: Unit)
    requires HexDigit(a) && HexDigit(b) && HexDigit(c) && HexDigit(d)
    ensures ValidChar(Hex(a, b, c, d))
    ensures DecodeChar(Hex(a, b, c, d)) == 4096 * HexValue(a) + 256 * HexValue(b) + 16 * HexValue(c) + HexValue(d)
  {
  }

  predicate Space(t: Text) {
    forall u :: u in t ==> SpaceUnit(u)
  }

  datatype Node = Str(literal: Literal) | Obj(lead: Text, members: Members)

  /** string ws ":" ws */
  datatype Key = Key(name: Literal, beforeColon: Text, afterColon: Text)

  /** key value ws */
  datatype Entry = Entry(key: Key, value: Node, afterValue: Text)

  /** Entries separated by "," ws. */
  datatype Members = End | Member(entry: Entry, afterComma: Text, more: Members)

  predicate Valid(n: Node) {
    match n
    case Str(l) => ValidLiteral(l)
    case Obj(lead, ms) => Space(lead) && ValidMembers(ms)
  }

  predicate ValidEntry(e: Entry) {
    ValidKey(e.key) && Valid(e.value) && Space(e.afterValue)
  }

  predicate ValidKey(k: Key) {
    ValidLiteral(k.name) && Space(k.beforeColon) && Space(k.afterColon)
  }

  predicate ValidMembers(ms: Members) {
    ms.Member? ==>
      ValidEntry(ms.entry) && Space(ms.afterComma) && ValidMembers(ms.more) && (ms.more.End? ==> ms.afterComma == [])
  }

  function NodeTo(n: Node, rest: Text): Text {
    match n
    case Str(l) => LiteralTo(l, rest)
    case Obj(lead, ms) => [OPEN] + (lead + MembersTo(ms, rest))
  }

  function KeyTo(k: Key, rest: Text): Text {
    LiteralTo(k.name, k.beforeColon + ([COLON] + (k.afterColon + rest)))
  }

  function EntryTo(e: Entry, rest: Text): Text {
    KeyTo(e.key, NodeTo(e.value, e.afterValue + rest))
  }

  /** The members and the closing brace. */
  function MembersTo(ms: Members, rest: Text): Text
    decreases ms, 0
  {
    match ms
    case End => [CLOSE] + rest
    case Member(e, afterComma, more) => EntryTo(e, NextTo(more, afterComma, rest))
  }

  function NextTo(more: Members, afterComma: Text, rest: Text): Text
    decreases more, 1
  {
    if more.End? then [CLOSE] + rest else [COMMA] + (afterComma + MembersTo(more, rest))
  }

  function Print(n: Node): Text {
    NodeTo(n, [])
  }

  /** A tree: strings and records by key. */
  datatype Value = Leaf(text: Text) | Record(fields: map<Text, Value>)

  function Meaning(n: Node): Value
    requires Valid(n)
  {
    match n
    case Str(l) => Leaf(Decode(l))
    case Obj(_, ms) => Record(Fields(ms))
  }

  function Fields(ms: Members): map<Text, Value>
    requires ValidMembers(ms)
  {
    if ms.End? then map[]
    else
      assert ValidEntry(ms.entry);
      map[Decode(ms.entry.key.name) := Meaning(ms.entry.value)] + Fields(ms.more)
  }

  // ----- the grammar's parser -----

  datatype Parsed<T> = Fail | Got(value: T, rest: Text)

  /** From inside a literal through its closing quotation mark. */
  function ParseChars(s: Text): (r: Parsed<Literal>)
    ensures r.Got? ==> ValidLiteral(r.value) && |r.rest| < |s|
  {
    if s == [] then Fail
    else if s[0] == QUOTE then Got(Empty, s[1..])
    else if s[0] == BACKSLASH then
      if |s| >= 6 && s[1] == LETTER_U && HexDigit(s[2]) && HexDigit(s[3]) && HexDigit(s[4]) && HexDigit(s[5]) then
        Prefixed(Hex(s[2], s[3], s[4], s[5]), ParseChars(s[6..]))
      else if |s| >= 2 && ShortLetter(s[1]) then Prefixed(Short(s[1]), ParseChars(s[2..]))
      else Fail
    else if s[0] < 0x20 then Fail
    else Prefixed(Plain(s[0]), ParseChars(s[1..]))
  }

  function Prefixed(c: Char, tail: Parsed<Literal>): Parsed<Literal> {
    if tail.Fail? then Fail else Got(Then(c, tail.value), tail.rest)
  }

  lemma CharParses(c: Char, tail: Text)
    requires ValidChar(c)
    ensures ParseChars(PrintChar(c) + tail) == Prefixed(c, ParseChars(tail))
  {
    Unprefix(PrintChar(c), tail);
  }

  lemma {:induction false} CharsParse(l: Literal, rest: Text)
    requires ValidLiteral(l)
    ensures ParseChars(CharsTo(l, rest)) == Got(l, rest)
  {
    match l
    case Empty =>
      Unprefix([QUOTE], rest);
    case Then(c, more) =>
      CharsParse(more, rest);
      CharParses(c, CharsTo(more, rest));
  }

  lemma Unprefix(a: Text, b: Text)
    ensures (a + b)[|a|..] == b
    ensures forall i :: 0 <= i < |a| ==> (a + b)[i] == a[i]
  {
  }

  function ParseLiteral(s: Text): (r: Parsed<Literal>)
    ensures r.Got? ==> ValidLiteral(r.value) && |r.rest| < |s|
  {
    if !Starts(s, QUOTE) then Fail else ParseChars(s[1..])
  }

  predicate Starts(s: Text, u: Unit) {
    s != [] && s[0] == u
  }

  function After(s: Text, u: Unit): (r: Text)
    requires Starts(s, u)
    ensures |r| < |s|
  {
    s[1..]
  }

  lemma LiteralParses(l: Literal, rest: Text)
    requires ValidLiteral(l)
    ensures ParseLiteral(LiteralTo(l, rest)) == Got(l, rest)
  {
    CharsParse(l, rest);
    Unprefix([QUOTE], CharsTo(l, rest));
  }

  /** The longest run of white space at the start, and what follows it. */
  function Lead(s: Text): (w: Text)
    ensures Space(w)
  {
    if s != [] && SpaceUnit(s[0]) then [s[0]] + Lead(s[1..]) else []
  }

  function Skip(s: Text): (r: Text)
    ensures |r| <= |s|
  {
    if s != [] && SpaceUnit(s[0]) then Skip(s[1..]) else s
  }

  lemma {:induction false} LeadSkip(s: Text)
    ensures s == Lead(s) + Skip(s) && Space(Lead(s))
    ensures Skip(s) != [] ==> !SpaceUnit(Skip(s)[0])
  {
    if s != [] && SpaceUnit(s[0]) {
      LeadSkip(s[1..]);
      assert s == [s[0]] + s[1..];
    }
  }

  lemma {:induction false} LeadIs(w: Text, r: Text)
    requires Space(w) && (r != [] ==> !SpaceUnit(r[0]))
    ensures Lead(w + r) == w && Skip(w + r) == r
  {
    if w == [] {
      assert w + r == r;
    } else {
      assert w[0] in w;
      assert forall u :: u in w[1..] ==> u in w;
      assert (w + r)[1..] == w[1..] + r;
      LeadIs(w[1..], r);
    }
  }

  /** `s` from a key on, to its value. */
  function ParseKey(s: Text): (r: Parsed<Key>)
    ensures r.Got? ==> ValidKey(r.value) && |r.rest| < |s|
  {
    var name := ParseLiteral(s);
    if name.Fail? then Fail
    else
      var colon := Skip(name.rest);
      if !Starts(colon, COLON) then Fail
      else Got(Key(name.value, Lead(name.rest), Lead(After(colon, COLON))), Skip(After(colon, COLON)))
  }

  lemma KeyParses(k: Key, rest: Text)
    requires ValidKey(k) && (rest != [] ==> !SpaceUnit(rest[0]))
    ensures ParseKey(KeyTo(k, rest)) == Got(k, rest)
  {
    var fromColon := [COLON] + (k.afterColon + rest);
    LiteralParses(k.name, k.beforeColon + fromColon);
    LeadIs(k.beforeColon, fromColon);
    Unprefix([COLON], k.afterColon + rest);
    LeadIs(k.afterColon, rest);
  }

  /** `s` from an opening brace on. */
  function ParseObject(s: Text): (r: Parsed<Node>)
    ensures r.Got? ==> r.value.Obj? && Valid(r.value) && |r.rest| < |s|
    decreases |s|, 0
  {
    if !Starts(s, OPEN) then Fail
    else
      var lead, s1 := Lead(After(s, OPEN)), Skip(After(s, OPEN));
      if Starts(s1, CLOSE) then Got(Obj(lead, End), After(s1, CLOSE))
      else
        var ms := ParseMembers(s1);
        if ms.Fail? then Fail else Got(Obj(lead, ms.value), ms.rest)
  }

  /** `s` from a value on: here an object or a string. */
  function ParseValue(s: Text): (r: Parsed<Node>)
    ensures r.Got? ==> Valid(r.value) && |r.rest| < |s|
    decreases |s|, 1
  {
    if Starts(s, OPEN) then ParseObject(s)
    else
      var l := ParseLiteral(s);
      if l.Fail? then Fail else Got(Str(l.value), l.rest)
  }

  /** `s` from a key on, to the separator after its value. */
  function ParseEntry(s: Text): (r: Parsed<Entry>)
    ensures r.Got? ==> ValidEntry(r.value) && |r.rest| < |s|
    decreases |s|, 2
  {
    var key := ParseKey(s);
    if key.Fail? then Fail
    else
      var value := ParseValue(key.rest);
      if value.Fail? then Fail else Got(Entry(key.value, value.value, Lead(value.rest)), Skip(value.rest))
  }

  /** `s` from a key on, through the brace that closes its object. */
  function ParseMembers(s: Text): (r: Parsed<Members>)
    ensures r.Got? ==> r.value.Member? && ValidMembers(r.value) && |r.rest| < |s|
    decreases |s|, 3
  {
    var e := ParseEntry(s);
    if e.Fail? then Fail
    else if Starts(e.rest, CLOSE) then Got(Member(e.value, [], End), After(e.rest, CLOSE))
    else if Starts(e.rest, COMMA) then
      var w, next := Lead(After(e.rest, COMMA)), Skip(After(e.rest, COMMA));
      var more := ParseMembers(next);
      if more.Fail? then Fail else Got(Member(e.value, w, more.value), more.rest)
    else Fail
  }

  // Soundness: what is parsed is the printed form of the tree, in front of the rest.

  lemma {:induction false} CharsSound(s: Text)
    requires ParseChars(s).Got?
    ensures s == CharsTo(ParseChars(s).value, ParseChars(s).rest)
  {
    if s[0] == QUOTE {
      assert s == [QUOTE] + s[1..];
    } else {
      var c := ParseChars(s).value.first;
      assert s == PrintChar(c) + s[|PrintChar(c)|..];
      CharsSound(s[|PrintChar(c)|..]);
    }
  }

  lemma LiteralSound(s: Text)
    requires ParseLiteral(s).Got?
    ensures s == LiteralTo(ParseLiteral(s).value, ParseLiteral(s).rest)
  {
    CharsSound(s[1..]);
    assert s == [QUOTE] + s[1..];
  }

  lemma KeySound(s: Text)
    requires ParseKey(s).Got?
    ensures s == KeyTo(ParseKey(s).value, ParseKey(s).rest)
  {
    LiteralSound(s);
    var name := ParseLiteral(s);
    var colon := Skip(name.rest);
    LeadSkip(name.rest);
    assert colon == [COLON] + After(colon, COLON);
    LeadSkip(After(colon, COLON));
  }

  lemma {:induction false} ValueSound(s: Text)
    requires ParseValue(s).Got?
    ensures s == NodeTo(ParseValue(s).value, ParseValue(s).rest)
    decreases |s|, 0
  {
    if Starts(s, OPEN) {
      var inside := After(s, OPEN);
      assert s == [OPEN] + inside;
      LeadSkip(inside);
      if Starts(Skip(inside), CLOSE) {
        assert Skip(inside) == [CLOSE] + After(Skip(inside), CLOSE);
      } else {
        MembersSound(Skip(inside));
      }
    } else {
      LiteralSound(s);
    }
  }

  lemma {:induction false} EntrySound(s: Text)
    requires ParseEntry(s).Got?
    ensures s == EntryTo(ParseEntry(s).value, ParseEntry(s).rest)
    decreases |s|, 1
  {
    KeySound(s);
    var value := ParseValue(ParseKey(s).rest);
    ValueSound(ParseKey(s).rest);
    LeadSkip(value.rest);
  }

  lemma {:induction false} MembersSound(s: Text)
    requires ParseMembers(s).Got?
    ensures s == MembersTo(ParseMembers(s).value, ParseMembers(s).rest)
    decreases |s|, 2
  {
    EntrySound(s);
    var e := ParseEntry(s);
    if Starts(e.rest, CLOSE) {
      assert e.rest == [CLOSE] + After(e.rest, CLOSE);
    } else {
      var next := After(e.rest, COMMA);
      assert e.rest == [COMMA] + next;
      LeadSkip(next);
      MembersSound(Skip(next));
    }
  }

  // Completeness: the printed form of every valid tree parses back to it.

  /** Members begin with a key or the closing brace, what follows an entry with "," or the brace. */
  lemma MembersStart(ms: Members, afterComma: Text, rest: Text)
    ensures MembersTo(ms, rest) != [] && MembersTo(ms, rest)[0] == if ms.End? then CLOSE else QUOTE
    ensures NextTo(ms, afterComma, rest) != [] && NextTo(ms, afterComma, rest)[0] == if ms.End? then CLOSE else COMMA
  {
    if ms.Member? {
      assert MembersTo(ms, rest) == EntryTo(ms.entry, NextTo(ms.more, ms.afterComma, rest));
    }
  }

  lemma {:induction false} ValueParses(n: Node, rest: Text)
    requires Valid(n)
    ensures ParseValue(NodeTo(n, rest)) == Got(n, rest)
    ensures n.Obj? ==> ParseObject(NodeTo(n, rest)) == Got(n, rest)
    ensures !SpaceUnit(NodeTo(n, rest)[0])
  {
    match n
    case Str(l) =>
      LiteralParses(l, rest);
    case Obj(lead, ms) =>
      var tail := MembersTo(ms, rest);
      Unprefix([OPEN], lead + tail);
      MembersStart(ms, [], rest);
      LeadIs(lead, tail);
      if ms.End? {
        Unprefix([CLOSE], rest);
      } else {
        MembersParse(ms, rest);
      }
  }

  lemma {:induction false} EntryParses(e: Entry, rest: Text)
    requires ValidEntry(e) && (rest != [] ==> !SpaceUnit(rest[0]))
    ensures ParseEntry(EntryTo(e, rest)) == Got(e, rest)
  {
    ValueParses(e.value, e.afterValue + rest);
    KeyParses(e.key, NodeTo(e.value, e.afterValue + rest));
    LeadIs(e.afterValue, rest);
  }

  lemma {:induction false} MembersParse(ms: Members, rest: Text)
    requires ValidMembers(ms) && ms.Member?
    ensures ParseMembers(MembersTo(ms, rest)) == Got(ms, rest)
  {
    var next := NextTo(ms.more, ms.afterComma, rest);
    assert ValidEntry(ms.entry);
    MembersStart(ms.more, ms.afterComma, rest);
    EntryParses(ms.entry, next);
    if ms.more.End? {
      Unprefix([CLOSE], rest);
    } else {
      var tail := MembersTo(ms.more, rest);
      Unprefix([COMMA], ms.afterComma + tail);
      LeadIs(ms.afterComma, tail);
      MembersParse(ms.more, rest);
    }
  }

  /** The grammar is unambiguous: a text has at most one syntax tree. */
  lemma Unambiguous(a: Node, b: Node)
    requires Valid(a) && Valid(b) && Print(a) == Print(b)
    ensures a == b
  {
    ValueParses(a, []);
    ValueParses(b, []);
  }
}
