/** The canonical text of a durable command, which the runner's receipt store shares: object keys
    sorted by code unit, no white space, every string as JSON.stringify writes it.

    An object lists its properties in insertion order; its meaning forgets that order. */
module CanonicalJson {
  import opened JsonText
  import opened TriggerRecords
  import opened Options

  datatype JsValue = JsString(text: Text) | JsObject(props: Props)

  datatype Props = NoProps | Prop(key: Text, value: JsValue, more: Props)

  function Keys(ps: Props): set<Text> {
    if ps.NoProps? then {} else {ps.key} + Keys(ps.more)
  }

  /** No object has a key twice. */
  predicate Proper(v: JsValue) {
    v.JsObject? ==> ProperProps(v.props)
  }

  predicate ProperProps(ps: Props) {
    ps.Prop? ==> ps.key !in Keys(ps.more) && Proper(ps.value) && ProperProps(ps.more)
  }

  function JsMeaning(v: JsValue): Value {
    match v
    case JsString(t) => Leaf(t)
    case JsObject(ps) => Record(JsFields(ps))
  }

  function JsFields(ps: Props): (m: map<Text, Value>)
    ensures m.Keys == Keys(ps)
  {
    if ps.NoProps? then map[] else map[ps.key := JsMeaning(ps.value)] + JsFields(ps.more)
  }

  // ----- JSON.stringify of a string -----

  function EscapeUnit(u: Unit): Char {
    Hex(LowerHex(u / 0x1000), LowerHex(u / 0x100 % 0x10), LowerHex(u / 0x10 % 0x10), LowerHex(u % 0x10))
  }

  function QuoteUnit(u: Unit): Char {
    if u == 0x08 then Short(LETTER_B)
    else if u == 0x09 then Short(LETTER_T)
    else if u == 0x0A then Short(LETTER_N)
    else if u == 0x0C then Short(LETTER_F)
    else if u == 0x0D then Short(LETTER_R)
    else if u == QUOTE || u == BACKSLASH then Short(u)
    else if u < 0x20 || High(u) || Low(u) then EscapeUnit(u)
    else Plain(u)
  }

  /** Surrogate pairs are written as they are, unpaired surrogates as escapes. */
  function Quote(t: Text): Literal {
    if t == [] then Empty
    else if |t| > 1 && High(t[0]) && Low(t[1]) then Then(Plain(t[0]), Then(Plain(t[1]), Quote(t[2..])))
    else Then(QuoteUnit(t[0]), Quote(t[1..]))
  }

  lemma EscapeMeans(u: Unit)
    ensures ValidChar(EscapeUnit(u)) && DecodeChar(EscapeUnit(u)) == u
  {
    var a: nat, b: nat, c: nat := u / 0x10, u / 0x100, u / 0x1000;
    assert a == b * 0x10 + a % 0x10;
    assert b == u / 0x10 / 0x10 && c == u / 0x100 / 0x10;
  }

  lemma QuoteUnitMeans(u: Unit)
    ensures ValidChar(QuoteUnit(u)) && DecodeChar(QuoteUnit(u)) == u
  {
    var c := QuoteUnit(u);
    if c.Hex? {
      assert c == EscapeUnit(u);
      EscapeMeans(u);
    } else if c.Short? {
      assert u in {0x08, 0x09, 0x0A, 0x0C, 0x0D, QUOTE, BACKSLASH};
    }
  }

  /** Quoting loses nothing, for every string of code units. */
  lemma {:induction false} QuoteMeans(t: Text)
    ensures ValidLiteral(Quote(t)) && Decode(Quote(t)) == t
  {
    if t != [] {
      if |t| > 1 && High(t[0]) && Low(t[1]) {
        QuoteMeans(t[2..]);
        assert t == [t[0]] + ([t[1]] + t[2..]);
      } else {
        QuoteMeans(t[1..]);
        QuoteUnitMeans(t[0]);
        assert t == [t[0]] + t[1..];
      }
    }
  }

  /** How one unit is written: as itself, but quotation marks, reverse solidi and control characters by
      their short escape where there is one, and other control characters and unpaired surrogates by
      six characters with lower-case digits. */
  lemma UnitIsWritten(u: Unit)
    ensures var t := PrintChar(QuoteUnit(u));
      if u in {0x22, 0x5C} then t == [0x5C, u]
      else if u == 8 then t == [0x5C, 0x62]
      else if u == 9 then t == [0x5C, 0x74]
      else if u == 10 then t == [0x5C, 0x6E]
      else if u == 12 then t == [0x5C, 0x66]
      else if u == 13 then t == [0x5C, 0x72]
      else if u <= 0x1F || 0xD800 <= u <= 0xDFFF then
        |t| == 6 && t[..2] == [0x5C, 0x75] && forall k :: 2 <= k < 6 ==> 0x30 <= t[k] <= 0x39 || 0x61 <= t[k] <= 0x66
      else t == [u]
  {
  }

  /** A surrogate pair is written as it is. */
  lemma PairIsWritten(high: Unit, low: Unit, rest: Text)
    requires 0xD800 <= high <= 0xDBFF && 0xDC00 <= low <= 0xDFFF
    ensures Quote([high, low] + rest) == Then(Plain(high), Then(Plain(low), Quote(rest)))
  {
    assert ([high, low] + rest)[2..] == rest;
  }

  // ----- the canonical text -----

  /** Properties with the text of their value. */
  datatype Pairs = NoPairs | Pair(key: Text, text: Text, more: Pairs)

  /** Code unit order of two keys. */
  predicate KeyBefore(a: Text, b: Text) {
    b != [] && (a == [] || a[0] < b[0] || (a[0] == b[0] && KeyBefore(a[1..], b[1..])))
  }

  function InsertPair(key: Text, text: Text, ps: Pairs): Pairs {
    if ps.NoPairs? || KeyBefore(key, ps.key) then Pair(key, text, ps)
    else Pair(ps.key, ps.text, InsertPair(key, text, ps.more))
  }

  function Sorted(ps: Pairs): Pairs {
    if ps.NoPairs? then NoPairs else InsertPair(ps.key, ps.text, Sorted(ps.more))
  }

  /** The pairs separated by commas, in front of `rest`. */
  function JoinTo(ps: Pairs, rest: Text): Text {
    match ps
    case NoPairs => rest
    case Pair(key, text, more) =>
      LiteralTo(Quote(key), [COLON] + (text + if more.NoPairs? then rest else [COMMA] + JoinTo(more, rest)))
  }

  function Canonical(v: JsValue): Text {
    match v
    case JsString(t) => LiteralTo(Quote(t), [])
    case JsObject(ps) => [OPEN] + JoinTo(Sorted(CanonicalPairs(ps)), [CLOSE])
  }

  function CanonicalPairs(ps: Props): Pairs {
    if ps.NoProps? then NoPairs else Pair(ps.key, Canonical(ps.value), CanonicalPairs(ps.more))
  }

  // ----- sorting by key -----

  lemma {:induction false} KeyOrderTotal(a: Text, b: Text)
    ensures !(KeyBefore(a, b) && KeyBefore(b, a))
    ensures !KeyBefore(a, b) && !KeyBefore(b, a) <==> a == b
  {
    if a != [] && b != [] && a[0] == b[0] {
      KeyOrderTotal(a[1..], b[1..]);
      assert a == [a[0]] + a[1..] && b == [b[0]] + b[1..];
    }
  }

  lemma {:induction false} KeyOrderTransitive(a: Text, b: Text, c: Text)
    requires KeyBefore(a, b) && KeyBefore(b, c)
    ensures KeyBefore(a, c)
  {
    if a != [] && a[0] == b[0] == c[0] {
      KeyOrderTransitive(a[1..], b[1..], c[1..]);
    }
  }

  function Texts(ps: Pairs): map<Text, Text> {
    if ps.NoPairs? then map[] else map[ps.key := ps.text] + Texts(ps.more)
  }

  predicate DistinctPairs(ps: Pairs) {
    ps.Pair? ==> ps.key !in Texts(ps.more) && DistinctPairs(ps.more)
  }

  /** Every key comes strictly before all later ones. */
  ghost predicate Ascending(ps: Pairs) {
    ps.Pair? ==> (forall k :: k in Texts(ps.more) ==> KeyBefore(ps.key, k)) && Ascending(ps.more)
  }

  lemma Swapped(k: Text, v: Text, m: map<Text, Text>, key: Text, text: Text)
    requires k != key
    ensures map[k := v] + m[key := text] == (map[k := v] + m)[key := text]
  {
  }

  lemma {:induction false} InsertAscending(key: Text, text: Text, ps: Pairs)
    requires Ascending(ps) && key !in Texts(ps)
    ensures Ascending(InsertPair(key, text, ps))
    ensures Texts(InsertPair(key, text, ps)) == Texts(ps)[key := text]
  {
    if ps.Pair? {
      if KeyBefore(key, ps.key) {
        forall k | k in Texts(ps.more) ensures KeyBefore(key, k) {
          KeyOrderTransitive(key, ps.key, k);
        }
      } else {
        KeyOrderTotal(key, ps.key);
        InsertAscending(key, text, ps.more);
        Swapped(ps.key, ps.text, Texts(ps.more), key, text);
      }
    }
  }

  lemma {:induction false} SortedAscending(ps: Pairs)
    requires DistinctPairs(ps)
    ensures Ascending(Sorted(ps)) && Texts(Sorted(ps)) == Texts(ps)
  {
    if ps.Pair? {
      SortedAscending(ps.more);
      InsertAscending(ps.key, ps.text, Sorted(ps.more));
    }
  }

  /** Two ascending lists with the same pairs are the same list. */
  lemma {:induction false} AscendingUnique(a: Pairs, b: Pairs)
    requires Ascending(a) && Ascending(b) && Texts(a) == Texts(b)
    ensures a == b
  {
    if a.NoPairs? {
      assert Texts(b) == map[];
    } else {
      assert a.key in Texts(b);
      assert b.key in Texts(a);
      KeyOrderTotal(a.key, b.key);
      assert a.key == b.key;
      KeyOrderTotal(a.key, a.key);
      assert Texts(a.more) == Texts(a) - {a.key};
      assert Texts(b.more) == Texts(b) - {b.key};
      AscendingUnique(a.more, b.more);
    }
  }

  lemma {:induction false} CanonicalPairsDistinct(ps: Props)
    requires ProperProps(ps)
    ensures DistinctPairs(CanonicalPairs(ps)) && Texts(CanonicalPairs(ps)).Keys == Keys(ps)
  {
    if ps.Prop? {
      CanonicalPairsDistinct(ps.more);
    }
  }

  // ----- same meaning, same text -----

  /** The canonical text does not depend on the order in which keys were added. */
  lemma {:induction false} SameMeaningSameText(a: JsValue, b: JsValue)
    requires Proper(a) && Proper(b) && JsMeaning(a) == JsMeaning(b)
    ensures Canonical(a) == Canonical(b)
    decreases a, 0
  {
    if a.JsObject? {
      CanonicalPairsDistinct(a.props);
      CanonicalPairsDistinct(b.props);
      var ta, tb := Texts(CanonicalPairs(a.props)), Texts(CanonicalPairs(b.props));
      forall k | k in ta ensures k in tb && ta[k] == tb[k] {
        SameField(a.props, b.props, k);
      }
      assert ta.Keys == JsFields(a.props).Keys == JsFields(b.props).Keys == tb.Keys;
      assert ta == tb;
      SortedAscending(CanonicalPairs(a.props));
      SortedAscending(CanonicalPairs(b.props));
      AscendingUnique(Sorted(CanonicalPairs(a.props)), Sorted(CanonicalPairs(b.props)));
    }
  }

  lemma {:induction false} SameField(a: Props, b: Props, k: Text)
    requires ProperProps(a) && ProperProps(b) && k in Keys(a)
    requires k in JsFields(b) && JsFields(a)[k] == JsFields(b)[k]
    ensures k in Texts(CanonicalPairs(a)) && k in Texts(CanonicalPairs(b))
    ensures Texts(CanonicalPairs(a))[k] == Texts(CanonicalPairs(b))[k]
    decreases a, 1
  {
    CanonicalPairsDistinct(a);
    CanonicalPairsDistinct(b);
    if a.key == k {
      var y := Field(b, k);
      SameMeaningSameText(a.value, y);
    } else {
      SameField(a.more, b, k);
    }
  }

  lemma {:induction false} Field(ps: Props, k: Text) returns (v: JsValue)
    requires ProperProps(ps) && k in Keys(ps)
    ensures Proper(v) && JsFields(ps)[k] == JsMeaning(v)
    ensures k in Texts(CanonicalPairs(ps)) && Texts(CanonicalPairs(ps))[k] == Canonical(v)
  {
    CanonicalPairsDistinct(ps);
    if ps.key == k {
      v := ps.value;
    } else {
      v := Field(ps.more, k);
      CanonicalPairsDistinct(ps.more);
    }
  }

  // ----- the canonical text is a text of the grammar -----

  function Tree(v: JsValue): Node {
    match v
    case JsString(t) => Str(Quote(t))
    case JsObject(ps) => Obj([], TreeMembers(ps))
  }

  function TreeMembers(ps: Props): Members {
    if ps.NoProps? then End else InsertMember(ps.key, Tree(ps.value), TreeMembers(ps.more))
  }

  function Compact(key: Text, value: Node): Entry {
    Entry(Key(Quote(key), [], []), value, [])
  }

  function InsertMember(key: Text, value: Node, ms: Members): Members
  {
    if ms.End? || (ValidLiteral(ms.entry.key.name) && KeyBefore(key, Decode(ms.entry.key.name)))
    then Member(Compact(key, value), [], ms)
    else Member(ms.entry, [], InsertMember(key, value, ms.more))
  }

  /** Members as the canonical text has them. */
  predicate CompactMembers(ms: Members) {
    ms.Member? ==>
      && ValidEntry(ms.entry) && ms.entry == Compact(Decode(ms.entry.key.name), ms.entry.value)
      && ms.afterComma == [] && CompactMembers(ms.more)
  }

  function PairsOf(ms: Members): Pairs
    requires CompactMembers(ms)
  {
    if ms.End? then NoPairs else Pair(Decode(ms.entry.key.name), Print(ms.entry.value), PairsOf(ms.more))
  }

  lemma {:induction false} CompactIsValid(ms: Members)
    requires CompactMembers(ms)
    ensures ValidMembers(ms)
  {
    if ms.Member? {
      CompactIsValid(ms.more);
    }
  }

  lemma {:induction false} InsertCompact(key: Text, value: Node, ms: Members)
    requires Valid(value) && CompactMembers(ms)
    ensures CompactMembers(InsertMember(key, value, ms))
    ensures PairsOf(InsertMember(key, value, ms)) == InsertPair(key, Print(value), PairsOf(ms))
  {
    QuoteMeans(key);
    if ms.Member? && !KeyBefore(key, Decode(ms.entry.key.name)) {
      InsertCompact(key, value, ms.more);
    }
  }

  lemma {:induction false} InsertFields(key: Text, value: Node, ms: Members)
    requires Valid(value) && CompactMembers(ms) && ValidMembers(ms) && key !in Fields(ms)
    requires CompactMembers(InsertMember(key, value, ms)) && ValidMembers(InsertMember(key, value, ms))
    ensures Fields(InsertMember(key, value, ms)) == Fields(ms)[key := Meaning(value)]
  {
    QuoteMeans(key);
    if ms.Member? && !KeyBefore(key, Decode(ms.entry.key.name)) {
      assert ValidEntry(ms.entry);
      InsertFields(key, value, ms.more);
      OtherKeyFirst(Decode(ms.entry.key.name), Meaning(ms.entry.value), Fields(ms.more), key, Meaning(value));
    } else {
      var r := InsertMember(key, value, ms);
      assert ValidEntry(r.entry);
      NewKeyFirst(key, Meaning(value), Fields(ms));
    }
  }

  lemma OtherKeyFirst(k: Text, v: Value, m: map<Text, Value>, key: Text, value: Value)
    requires k != key
    ensures map[k := v] + m[key := value] == (map[k := v] + m)[key := value]
  {
  }

  lemma NewKeyFirst(key: Text, value: Value, m: map<Text, Value>)
    requires key !in m
    ensures map[key := value] + m == m[key := value]
  {
  }

  lemma {:induction false} TreeIsCanonical(v: JsValue)
    requires Proper(v)
    ensures Valid(Tree(v)) && Print(Tree(v)) == Canonical(v) && Meaning(Tree(v)) == JsMeaning(v)
  {
    match v
    case JsString(t) =>
      QuoteMeans(t);
    case JsObject(ps) =>
      TreeMembersCanonical(ps);
      MembersJoin(TreeMembers(ps), []);
      assert [] + MembersTo(TreeMembers(ps), []) == MembersTo(TreeMembers(ps), []);
      assert [CLOSE] + [] == [CLOSE];
  }

  lemma {:induction false} TreeMembersCanonical(ps: Props)
    requires ProperProps(ps)
    ensures var ms := TreeMembers(ps);
      CompactMembers(ms) && ValidMembers(ms) && Fields(ms) == JsFields(ps) && PairsOf(ms) == Sorted(CanonicalPairs(ps))
  {
    if ps.Prop? {
      TreeIsCanonical(ps.value);
      TreeMembersCanonical(ps.more);
      InsertCanonical(ps.key, Tree(ps.value), TreeMembers(ps.more), Canonical(ps.value), JsMeaning(ps.value), JsFields(ps.more),
                      Sorted(CanonicalPairs(ps.more)));
    }
  }

  lemma InsertCanonical(key: Text, value: Node, ms: Members, text: Text, meaning: Value, fields: map<Text, Value>, pairs: Pairs)
    requires Valid(value) && Print(value) == text && Meaning(value) == meaning
    requires CompactMembers(ms) && ValidMembers(ms) && Fields(ms) == fields && PairsOf(ms) == pairs && key !in fields
    ensures var r := InsertMember(key, value, ms);
      CompactMembers(r) && ValidMembers(r) && Fields(r) == fields[key := meaning] && PairsOf(r) == InsertPair(key, text, pairs)
  {
    InsertCompact(key, value, ms);
    CompactIsValid(InsertMember(key, value, ms));
    InsertFields(key, value, ms);
  }

  // Texts in front of a rest are that text and the rest.

  lemma {:induction false} CharsAppend(l: Literal, a: Text, b: Text)
    ensures CharsTo(l, a + b) == CharsTo(l, a) + b
  {
    match l
    case Empty =>
      assert [QUOTE] + (a + b) == ([QUOTE] + a) + b;
    case Then(c, more) =>
      CharsAppend(more, a, b);
      assert PrintChar(c) + (CharsTo(more, a) + b) == (PrintChar(c) + CharsTo(more, a)) + b;
  }

  lemma LiteralAppend(l: Literal, a: Text, b: Text)
    ensures LiteralTo(l, a + b) == LiteralTo(l, a) + b
  {
    CharsAppend(l, a, b);
    assert [QUOTE] + (CharsTo(l, a) + b) == ([QUOTE] + CharsTo(l, a)) + b;
  }

  lemma Assoc(a: Text, b: Text, c: Text)
    ensures a + (b + c) == (a + b) + c
  {
  }

  lemma {:induction false} NodeAppend(n: Node, a: Text, b: Text)
    ensures NodeTo(n, a + b) == NodeTo(n, a) + b
  {
    match n
    case Str(l) =>
      LiteralAppend(l, a, b);
    case Obj(lead, ms) =>
      MembersAppend(ms, a, b);
      Assoc(lead, MembersTo(ms, a), b);
      Assoc([OPEN], lead + MembersTo(ms, a), b);
  }

  lemma {:induction false} EntryAppend(e: Entry, a: Text, b: Text)
    ensures EntryTo(e, a + b) == EntryTo(e, a) + b
  {
    var value := NodeTo(e.value, e.afterValue + a);
    Assoc(e.afterValue, a, b);
    NodeAppend(e.value, e.afterValue + a, b);
    Assoc(e.key.afterColon, value, b);
    Assoc([COLON], e.key.afterColon + value, b);
    Assoc(e.key.beforeColon, [COLON] + (e.key.afterColon + value), b);
    LiteralAppend(e.key.name, e.key.beforeColon + ([COLON] + (e.key.afterColon + value)), b);
  }

  lemma {:induction false} MembersAppend(ms: Members, a: Text, b: Text)
    ensures MembersTo(ms, a + b) == MembersTo(ms, a) + b
  {
    match ms
    case End =>
      Assoc([CLOSE], a, b);
    case Member(e, w, more) =>
      MembersAppend(more, a, b);
      Assoc([CLOSE], a, b);
      Assoc(w, MembersTo(more, a), b);
      Assoc([COMMA], w + MembersTo(more, a), b);
      EntryAppend(e, NextTo(more, w, a), b);
  }

  lemma {:induction false} MembersJoin(ms: Members, rest: Text)
    requires CompactMembers(ms)
    ensures MembersTo(ms, rest) == JoinTo(PairsOf(ms), [CLOSE] + rest)
  {
    if ms.Member? {
      var e, next := ms.entry, NextTo(ms.more, ms.afterComma, rest);
      MembersJoin(ms.more, rest);
      assert [] + MembersTo(ms.more, rest) == MembersTo(ms.more, rest);
      assert [] + next == next;
      NodeAppend(e.value, [], next);
      assert [] + NodeTo(e.value, next) == NodeTo(e.value, next);
      var value := [COLON] + NodeTo(e.value, next);
      assert [] + value == value;
    }
  }

  // ----- main results -----

  /** Two values have the same canonical text exactly when they mean the same: the text forgets the
      order in which keys were added and nothing else. */
  lemma CanonicalTextIsMeaning(a: JsValue, b: JsValue)
    requires Proper(a) && Proper(b)
    ensures Canonical(a) == Canonical(b) <==> JsMeaning(a) == JsMeaning(b)
  {
    if Canonical(a) == Canonical(b) {
      TreeIsCanonical(a);
      TreeIsCanonical(b);
      Unambiguous(Tree(a), Tree(b));
    }
    if JsMeaning(a) == JsMeaning(b) {
      SameMeaningSameText(a, b);
    }
  }

  function JsLevels(v: JsValue): nat {
    if v.JsString? then 0 else 1 + PropLevels(v.props)
  }

  function PropLevels(ps: Props): nat {
    if ps.NoProps? then 0 else Max(JsLevels(ps.value), PropLevels(ps.more))
  }

  predicate JsWellFormed(v: JsValue) {
    if v.JsString? then WellFormed(v.text) else PropsWellFormed(v.props)
  }

  predicate PropsWellFormed(ps: Props) {
    ps.Prop? ==> WellFormed(ps.key) && JsWellFormed(ps.value) && PropsWellFormed(ps.more)
  }

  lemma {:induction false} TreeAcceptable(v: JsValue)
    requires Proper(v) && Valid(Tree(v))
    ensures Levels(Tree(v)) == JsLevels(v)
    ensures KeysDistinct(Tree(v))
    ensures StringsWellFormed(Tree(v)) <==> JsWellFormed(v)
  {
    match v
    case JsString(t) =>
      QuoteMeans(t);
    case JsObject(ps) =>
      TreeMembersAcceptable(ps);
  }

  lemma {:induction false} TreeMembersAcceptable(ps: Props)
    requires ProperProps(ps)
    ensures var ms := TreeMembers(ps);
      && CompactMembers(ms) && ValidMembers(ms) && Fields(ms).Keys == Keys(ps)
      && MemberLevels(ms) == PropLevels(ps)
      && MemberKeysDistinct(ms)
      && (MembersWellFormed(ms) <==> PropsWellFormed(ps))
  {
    TreeMembersCanonical(ps);
    if ps.Prop? {
      TreeIsCanonical(ps.value);
      TreeAcceptable(ps.value);
      TreeMembersAcceptable(ps.more);
      InsertAcceptable(ps.key, Tree(ps.value), TreeMembers(ps.more));
    }
  }

  lemma {:induction false} InsertAcceptable(key: Text, value: Node, ms: Members)
    requires Valid(value) && KeysDistinct(value)
    requires CompactMembers(ms) && ValidMembers(ms) && MemberKeysDistinct(ms) && key !in Fields(ms)
    ensures var r := InsertMember(key, value, ms);
      && CompactMembers(r) && ValidMembers(r)
      && MemberLevels(r) == Max(Levels(value), MemberLevels(ms))
      && MemberKeysDistinct(r)
      && (MembersWellFormed(r) <==> WellFormed(key) && StringsWellFormed(value) && MembersWellFormed(ms))
  {
    QuoteMeans(key);
    InsertCompact(key, value, ms);
    CompactIsValid(InsertMember(key, value, ms));
    if ms.Member? && !KeyBefore(key, Decode(ms.entry.key.name)) {
      assert ValidEntry(ms.entry);
      InsertAcceptable(key, value, ms.more);
      InsertFields(key, value, ms.more);
    }
  }

  /** Round trip: the trigger parser reads a canonical text back to the same fields exactly when the
      value is a record of at most three levels whose strings are all well formed; otherwise it
      refuses the text. */
  lemma ParsesBack(v: JsValue)
    requires Proper(v)
    ensures RecordIn(Canonical(v)) ==
              if v.JsObject? && JsLevels(v) <= MAX_DEPTH + 1 && JsWellFormed(v) then Some(JsFields(v.props)) else None
  {
    TreeIsCanonical(v);
    TreeAcceptable(v);
    var n := Tree(v);
    ValueParses(n, []);
    assert Skip(Canonical(v)) == Canonical(v);
    if v.JsObject? {
      PassesIsAcceptable(n, 0);
    } else {
      assert Canonical(v)[0] == QUOTE;
    }
  }
}
