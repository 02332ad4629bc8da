/** The strict parser of automation trigger bodies.

    `RecordParser` advances one shared offset and checks as it goes; `RecordIn` first parses by the
    grammar and then asks whether the tree is acceptable. They give the same answer on every text. */
module TriggerRecords {
  import opened JsonText
  import opened Options

  /** An object nested deeper than this is refused; the outermost object has depth 0. */
  const MAX_DEPTH := 2

  // ----- which trees are acceptable -----

  function Max(a: nat, b: nat): nat { if a > b then a else b }

  /** Levels of objects. */
  function Levels(n: Node): nat {
    match n
    case Str(_) => 0
    case Obj(_, ms) => 1 + MemberLevels(ms)
  }

  function MemberLevels(ms: Members): nat {
    if ms.End? then 0 else Max(Levels(ms.entry.value), MemberLevels(ms.more))
  }

  predicate StringsWellFormed(n: Node)
    requires Valid(n)
  {
    match n
    case Str(l) => WellFormed(Decode(l))
    case Obj(_, ms) => MembersWellFormed(ms)
  }

  predicate MembersWellFormed(ms: Members)
    requires ValidMembers(ms)
  {
    ms.Member? ==>
      assert ValidEntry(ms.entry);
      WellFormed(Decode(ms.entry.key.name)) && StringsWellFormed(ms.entry.value) && MembersWellFormed(ms.more)
  }

  predicate KeysDistinct(n: Node)
    requires Valid(n)
  {
    n.Obj? ==> MemberKeysDistinct(n.members)
  }

  predicate MemberKeysDistinct(ms: Members)
    requires ValidMembers(ms)
  {
    ms.Member? ==>
      assert ValidEntry(ms.entry);
      Decode(ms.entry.key.name) !in Fields(ms.more) && KeysDistinct(ms.entry.value) && MemberKeysDistinct(ms.more)
  }

  /** At most three levels, no key twice in one object, and no unpaired surrogate in any string. */
  predicate Acceptable(n: Node)
    requires Valid(n)
  {
    Levels(n) <= MAX_DEPTH + 1 && KeysDistinct(n) && StringsWellFormed(n)
  }

  // ----- the checks in the order they are made -----

  predicate Passes(n: Node, depth: nat)
    requires Valid(n)
  {
    match n
    case Str(l) => WellFormed(Decode(l))
    case Obj(_, ms) => depth <= MAX_DEPTH && MembersPass(ms, {}, depth + 1)
  }

  predicate MembersPass(ms: Members, seen: set<Text>, depth: nat)
    requires ValidMembers(ms)
  {
    ms.Member? ==>
      assert ValidEntry(ms.entry);
      var key := Decode(ms.entry.key.name);
      WellFormed(key) && key !in seen && Passes(ms.entry.value, depth) && MembersPass(ms.more, seen + {key}, depth)
  }

  lemma {:induction false} PassesIsAcceptable(n: Node, depth: nat)
    requires Valid(n)
    ensures Passes(n, depth) <==> (n.Obj? ==> Levels(n) + depth <= MAX_DEPTH + 1) && KeysDistinct(n) && StringsWellFormed(n)
  {
    if n.Obj? {
      MembersPassIsAcceptable(n.members, {}, depth + 1);
    }
  }

  lemma {:induction false} MembersPassIsAcceptable(ms: Members, seen: set<Text>, depth: nat)
    requires ValidMembers(ms)
    ensures MembersPass(ms, seen, depth) <==>
              && (MemberLevels(ms) > 0 ==> MemberLevels(ms) + depth <= MAX_DEPTH + 1)
              && MemberKeysDistinct(ms) && MembersWellFormed(ms) && Fields(ms).Keys !! seen
  {
    if ms.Member? {
      assert ValidEntry(ms.entry);
      var key := Decode(ms.entry.key.name);
      PassesIsAcceptable(ms.entry.value, depth);
      MembersPassIsAcceptable(ms.more, seen + {key}, depth);
      assert Fields(ms).Keys == {key} + Fields(ms.more).Keys;
    }
  }

  // ----- the records a text holds -----

  /** The record a trigger body holds, or none. */
  function RecordIn(text: Text): Option<map<Text, Value>> {
    var p := ParseObject(Skip(text));
    if p.Got? && Skip(p.rest) == [] && Passes(p.value, 0) then Some(Fields(p.value.members)) else None
  }

  /** `text` is ws object ws in the sense of RFC 8259, with an acceptable object of these fields. */
  ghost predicate IsRecordText(text: Text, fields: map<Text, Value>) {
    exists lead, n, trail :: RecordSyntax(text, lead, n, trail) && Fields(n.members) == fields
  }

  ghost predicate RecordSyntax(text: Text, lead: Text, n: Node, trail: Text) {
    Space(lead) && Space(trail) && Valid(n) && n.Obj? && Acceptable(n) && text == lead + NodeTo(n, trail)
  }

  /** The parser accepts exactly the RFC 8259 texts of acceptable trees, with their meaning. */
  lemma AcceptsExactly(text: Text, fields: map<Text, Value>)
    ensures RecordIn(text) == Some(fields) <==> IsRecordText(text, fields)
  {
    if RecordIn(text) == Some(fields) {
      var p := ParseObject(Skip(text));
      PassesIsAcceptable(p.value, 0);
      LeadSkip(text);
      ValueSound(Skip(text));
      LeadSkip(p.rest);
      assert p.rest == Lead(p.rest);
      assert RecordSyntax(text, Lead(text), p.value, p.rest);
    }
    if IsRecordText(text, fields) {
      var lead, n, trail :| RecordSyntax(text, lead, n, trail) && Fields(n.members) == fields;
      ValueParses(n, trail);
      LeadIs(lead, NodeTo(n, trail));
      LeadIs(trail, []);
      assert trail + [] == trail;
      PassesIsAcceptable(n, 0);
    }
  }

  // ----- the scanner -----

  /** How far the scanner runs past an opening quotation mark: through the first one that is not
      escaped, unless the text ends or an unescaped control character comes first. */
  function Scan(s: Text, escaped: bool): (r: Option<nat>)
    ensures r.Some? ==> 0 < r.value <= |s|
  {
    if s == [] then None
    else if !escaped && s[0] == QUOTE then Some(1)
    else if !escaped && s[0] < 0x20 then None
    else
      var r := Scan(s[1..], !escaped && s[0] == BACKSLASH);
      if r.None? then None else Some(r.value + 1)
  }

  /** JSON.parse on a slice that begins with a quotation mark. */
  function JsonParse(slice: Text): Option<Text> {
    var p := ParseLiteral(slice);
    if p.Got? && p.rest == [] then Some(Decode(p.value)) else None
  }

  lemma {:induction false} ScanOver(s: Text, k: nat)
    requires k <= |s| && forall i :: 0 <= i < k ==> s[i] >= 0x20 && s[i] != QUOTE && s[i] != BACKSLASH
    ensures Scan(s, false) == (var r := Scan(s[k..], false); if r.None? then None else Some(r.value + k))
  {
    if k > 0 {
      ScanOver(s[1..], k - 1);
      assert s[1..][k - 1..] == s[k..];
    } else {
      assert s[0..] == s;
    }
  }

  lemma ScanEscape(s: Text)
    requires |s| >= 2 && s[0] == BACKSLASH
    ensures Scan(s, false) == (var r := Scan(s[2..], false); if r.None? then None else Some(r.value + 2))
  {
    assert s[1..][1..] == s[2..];
  }

  /** Cutting the literal out before parsing it loses nothing: the scanner stops where the grammar's
      literal ends, and the slice parses exactly when the literal at the start of the text does. */
  lemma {:induction false} ScanAgrees(s: Text)
    ensures var p, n := ParseChars(s), Scan(s, false);
      && (p.Got? ==> n == Some(|s| - |p.rest|) && s[n.value..] == p.rest)
      && (n.Some? ==> ParseChars(s[..n.value]) == if p.Got? then Got(p.value, []) else Fail)
    decreases |s|, 2
  {
    if s == [] || (s[0] < 0x20 && s[0] != QUOTE) {
    } else if s[0] == QUOTE {
      assert s[..1][1..] == [];
    } else if s[0] != BACKSLASH {
      Advance(s, Plain(s[0]));
    } else if |s| == 1 {
      assert Scan(s[1..], true) == None;
    } else {
      EscapeAgrees(s);
    }
  }

  lemma {:induction false} EscapeAgrees(s: Text)
    requires |s| >= 2 && s[0] == BACKSLASH
    ensures var p, n := ParseChars(s), Scan(s, false);
      && (p.Got? ==> n == Some(|s| - |p.rest|) && s[n.value..] == p.rest)
      && (n.Some? ==> ParseChars(s[..n.value]) == if p.Got? then Got(p.value, []) else Fail)
    decreases |s|, 1
  {
    ScanEscape(s);
    if |s| >= 6 && s[1] == LETTER_U && HexDigit(s[2]) && HexDigit(s[3]) && HexDigit(s[4]) && HexDigit(s[5]) {
      ScanOver(s[2..], 4);
      assert s[2..][4..] == s[6..];
      Advance(s, Hex(s[2], s[3], s[4], s[5]));
    } else if ShortLetter(s[1]) {
      Advance(s, Short(s[1]));
    }
  }

  lemma {:induction false} Advance(s: Text, c: Char)
    requires ValidChar(c) && PrintChar(c) <= s
    requires Scan(s, false) == (var r := Scan(s[|PrintChar(c)|..], false); if r.None? then None else Some(r.value + |PrintChar(c)|))
    ensures var p, n := ParseChars(s), Scan(s, false);
      && (p.Got? ==> n == Some(|s| - |p.rest|) && s[n.value..] == p.rest)
      && (n.Some? ==> ParseChars(s[..n.value]) == if p.Got? then Got(p.value, []) else Fail)
    decreases |s|, 0
  {
    var k := |PrintChar(c)|;
    var tail := s[k..];
    assert s == PrintChar(c) + tail;
    CharParses(c, tail);
    ScanAgrees(tail);
    var m := Scan(tail, false);
    if m.Some? { SliceBehind(c, tail, m.value); }
  }

  /** A slice that begins with a printed character. */
  lemma SliceBehind(c: Char, tail: Text, m: nat)
    requires ValidChar(c) && m <= |tail|
    ensures var s, k := PrintChar(c) + tail, |PrintChar(c)|;
      ParseChars(s[..m + k]) == Prefixed(c, ParseChars(tail[..m])) && s[m + k..] == tail[m..]
  {
    var s, k := PrintChar(c) + tail, |PrintChar(c)|;
    assert s[..m + k] == PrintChar(c) + tail[..m];
    CharParses(c, tail[..m]);
  }

  /** The same, for a literal that starts inside a text. */
  lemma CutOut(text: Text, start: nat)
    requires start < |text| && text[start] == QUOTE
    ensures var p, n := ParseLiteral(text[start..]), Scan(text[start + 1..], false);
      && (n.None? ==> p.Fail?)
      && (n.Some? ==> JsonParse(text[start..start + 1 + n.value]) == if p.Got? then Some(Decode(p.value)) else None)
      && (n.Some? && p.Got? ==> p.rest == text[start + 1 + n.value..])
  {
    var inside := text[start + 1..];
    ScanAgrees(inside);
    assert text[start..][1..] == inside;
    var n := Scan(inside, false);
    if n.Some? {
      assert text[start..start + 1 + n.value][1..] == inside[..n.value];
      assert inside[n.value..] == text[start + 1 + n.value..];
    }
  }

  // ----- the parser -----

  method CheckWellFormed(value: Text) returns (ok: bool)
    ensures ok <==> WellFormed(value)
  {
    var index := 0;
    while index < |value|
      invariant index <= |value|
      invariant WellFormed(value) <==> WellFormed(value[index..])
    {
      var code := value[index];
      if High(code) {
        if index + 1 >= |value| || !Low(value[index + 1]) {
          return false;
        }
        assert value[index..][2..] == value[index + 2..];
        index := index + 1;
      } else if Low(code) {
        return false;
      } else {
        assert value[index..][1..] == value[index + 1..];
      }
      index := index + 1;
    }
    return true;
  }

  predicate EntryPasses(e: Entry, seen: set<Text>, depth: nat)
    requires ValidEntry(e)
  {
    WellFormed(Decode(e.key.name)) && Decode(e.key.name) !in seen && Passes(e.value, depth)
  }

  function EntryMeaning(e: Entry): (Text, Value)
    requires ValidEntry(e)
  {
    (Decode(e.key.name), Meaning(e.value))
  }

  /** What the rest of an object's members make of the fields read so far, and the text behind them. */
  function Outcome(ahead: Text, read: map<Text, Value>, depth: nat): Option<(map<Text, Value>, Text)> {
    var p := ParseMembers(ahead);
    if p.Got? && MembersPass(p.value, read.Keys, depth) then Some((read + Fields(p.value), p.rest)) else None
  }

  lemma FromNothing(ahead: Text, depth: nat)
    ensures var p := ParseMembers(ahead);
      Outcome(ahead, map[], depth) == if p.Got? && MembersPass(p.value, {}, depth) then Some((Fields(p.value), p.rest)) else None
  {
    var p, none: map<Text, Value> := ParseMembers(ahead), map[];
    assert none.Keys == {};
    if p.Got? {
      assert none + Fields(p.value) == Fields(p.value);
    }
  }

  /** Reading one entry and what separates it from the next. */
  lemma OutcomeStep(ahead: Text, read: map<Text, Value>, depth: nat)
    ensures var e := ParseEntry(ahead);
      Outcome(ahead, read, depth) ==
        if e.Fail? || !EntryPasses(e.value, read.Keys, depth) then None
        else
          var (key, value) := EntryMeaning(e.value);
          if Starts(e.rest, CLOSE) then Some((read[key := value], After(e.rest, CLOSE)))
          else if Starts(e.rest, COMMA) then Outcome(Skip(After(e.rest, COMMA)), read[key := value], depth)
          else None
  {
    var e := ParseEntry(ahead);
    if e.Got? {
      var (key, value) := EntryMeaning(e.value);
      assert read.Keys + {key} == read[key := value].Keys;
      if Starts(e.rest, CLOSE) {
        var ms := Member(e.value, [], End);
        assert ParseMembers(ahead) == Got(ms, After(e.rest, CLOSE));
        MembersPassStep(ms, read, depth);
        assert MembersPass(End, read[key := value].Keys, depth) && Fields(End) == map[];
        assert read[key := value] + map[] == read[key := value];
      } else if Starts(e.rest, COMMA) {
        var next := After(e.rest, COMMA);
        var more := ParseMembers(Skip(next));
        if more.Got? {
          var ms := Member(e.value, Lead(next), more.value);
          assert ParseMembers(ahead) == Got(ms, more.rest);
          MembersPassStep(ms, read, depth);
        }
      }
    }
  }

  lemma MembersPassStep(ms: Members, read: map<Text, Value>, depth: nat)
    requires ms.Member? && ValidMembers(ms) && ValidEntry(ms.entry)
    ensures var (key, value) := EntryMeaning(ms.entry);
      && (MembersPass(ms, read.Keys, depth) <==>
           EntryPasses(ms.entry, read.Keys, depth) && MembersPass(ms.more, read[key := value].Keys, depth))
      && read + Fields(ms) == read[key := value] + Fields(ms.more)
  {
    var (key, value) := EntryMeaning(ms.entry);
    assert read.Keys + {key} == read[key := value].Keys;
  }

  class RecordParser {
    const text: Text
    var offset: nat

    ghost predicate Valid()
      reads this
    {
      offset <= |text|
    }

    constructor (text: Text)
      ensures Valid() && this.text == text && offset == 0
    {
      this.text := text;
      offset := 0;
    }

    /** The text still ahead. */
    ghost function Ahead(): Text
      reads this
      requires Valid()
    {
      text[offset..]
    }

    method Whitespace()
      requires Valid()
      modifies this
      ensures Valid() && Ahead() == Skip(old(Ahead()))
    {
      while offset < |text| && SpaceUnit(text[offset])
        invariant Valid()
        invariant Skip(Ahead()) == Skip(old(Ahead()))
      {
        assert Ahead()[1..] == text[offset + 1..];
        offset := offset + 1;
      }
    }

    method Take(u: Unit) returns (taken: bool)
      requires Valid()
      modifies this
      ensures Valid()
      ensures taken <==> Starts(old(Ahead()), u)
      ensures Ahead() == if taken then After(old(Ahead()), u) else old(Ahead())
    {
      taken := offset < |text| && text[offset] == u;
      if taken {
        assert Ahead()[1..] == text[offset + 1..];
        offset := offset + 1;
      }
    }

    /** Runs past an opening quotation mark to the one that ends the literal. */
    method ScanLiteral() returns (found: bool)
      requires Valid()
      modifies this
      ensures Valid()
      ensures var n := Scan(old(Ahead()), false);
        (found <==> n.Some?) && (found ==> offset == old(offset) + n.value)
    {
      ghost var s, start := Ahead(), offset;
      var escaped := false;
      while offset < |text|
        invariant Valid() && start <= offset
        invariant Scan(s, false) == (var n := Scan(Ahead(), escaped); if n.None? then None else Some(n.value + (offset - start)))
      {
        var character := text[offset];
        if !escaped && character == QUOTE {
          offset := offset + 1;
          return true;
        }
        if !escaped && character < 0x20 {
          return false;
        }
        assert Ahead()[1..] == text[offset + 1..];
        escaped := !escaped && character == BACKSLASH;
        offset := offset + 1;
      }
      return false;
    }

    /** A string literal whose value is well formed. */
    method ReadString() returns (r: Option<Text>)
      requires Valid()
      modifies this
      ensures Valid()
      ensures var p := ParseLiteral(old(Ahead()));
        && (r.Some? <==> p.Got? && WellFormed(Decode(p.value)))
        && (r.Some? ==> r.value == Decode(p.value) && Ahead() == p.rest)
    {
      if offset == |text| || text[offset] != QUOTE {
        return None;
      }
      var start := offset;
      ghost var p, n := ParseLiteral(Ahead()), Scan(text[start + 1..], false);
      CutOut(text, start);
      offset := offset + 1;
      var found := ScanLiteral();
      if !found {
        return None;
      }
      assert offset == start + 1 + n.value;
      var value := JsonParse(text[start..offset]);
      assert value == if p.Got? then Some(Decode(p.value)) else None;
      if value.None? {
        return None;
      }
      var ok := CheckWellFormed(value.value);
      return if ok then value else None;
    }

    /** A key and its colon; a key read before is refused. */
    method ReadKey(read: map<Text, Value>) returns (r: Option<Text>)
      requires Valid()
      modifies this
      ensures Valid() && (r.Some? ==> old(offset) < offset)
      ensures var p := ParseKey(old(Ahead()));
        && (r.Some? <==> p.Got? && WellFormed(Decode(p.value.name)) && Decode(p.value.name) !in read)
        && (r.Some? ==> r.value == Decode(p.value.name) && Ahead() == p.rest)
    {
      var key := ReadString();
      if key.None? || key.value in read {
        return None;
      }
      Whitespace();
      var colon := Take(COLON);
      if !colon {
        return None;
      }
      Whitespace();
      return key;
    }

    /** One key and its value, up to the separator; a key read before is refused. */
    method ReadEntry(read: map<Text, Value>, depth: nat) returns (r: Option<(Text, Value)>)
      requires Valid()
      modifies this
      ensures Valid() && (r.Some? ==> old(offset) < offset)
      ensures var p := ParseEntry(old(Ahead()));
        && (r.Some? <==> p.Got? && EntryPasses(p.value, read.Keys, depth))
        && (r.Some? ==> r.value == EntryMeaning(p.value) && Ahead() == p.rest)
      decreases |text| - offset, 2
    {
      var key := ReadKey(read);
      if key.None? {
        return None;
      }
      var value := ReadValue(depth);
      if value.None? {
        return None;
      }
      Whitespace();
      return Some((key.value, value.value));
    }

    method ReadValue(depth: nat) returns (r: Option<Value>)
      requires Valid()
      modifies this
      ensures Valid()
      ensures var p := ParseValue(old(Ahead()));
        && (r.Some? <==> p.Got? && Passes(p.value, depth))
        && (r.Some? ==> r.value == Meaning(p.value) && Ahead() == p.rest)
      decreases |text| - offset, 1
    {
      if offset < |text| && text[offset] == OPEN {
        var record := ReadObject(depth);
        return if record.None? then None else Some(Record(record.value));
      }
      var leaf := ReadString();
      return if leaf.None? then None else Some(Leaf(leaf.value));
    }

    method ReadObject(depth: nat) returns (r: Option<map<Text, Value>>)
      requires Valid()
      modifies this
      ensures Valid()
      ensures var p := ParseObject(old(Ahead()));
        && (r.Some? <==> p.Got? && Passes(p.value, depth))
        && (r.Some? ==> r.value == Fields(p.value.members) && Ahead() == p.rest)
      decreases |text| - offset, 0
    {
      if depth > MAX_DEPTH {
        return None;
      }
      var brace := Take(OPEN);
      if !brace {
        return None;
      }
      Whitespace();
      var closed := Take(CLOSE);
      if closed {
        return Some(map[]);
      }
      FromNothing(Ahead(), depth + 1);
      r := ReadMembers(depth);
    }

    /** The members of an object that is not empty, through its closing brace. */
    method ReadMembers(depth: nat) returns (r: Option<map<Text, Value>>)
      requires Valid()
      modifies this
      ensures Valid()
      ensures var all := Outcome(old(Ahead()), map[], depth + 1);
        && (r.Some? <==> all.Some?)
        && (r.Some? ==> r.value == all.value.0 && Ahead() == all.value.1)
      decreases |text| - offset, 3
    {
      ghost var all := Outcome(Ahead(), map[], depth + 1);
      var result: map<Text, Value> := map[];
      while offset < |text|
        invariant Valid() && old(offset) <= offset
        invariant Outcome(Ahead(), result, depth + 1) == all
      {
        OutcomeStep(Ahead(), result, depth + 1);
        var entry := ReadEntry(result, depth + 1);
        if entry.None? {
          return None;
        }
        result := result[entry.value.0 := entry.value.1];
        var closed := Take(CLOSE);
        if closed {
          return Some(result);
        }
        var comma := Take(COMMA);
        if !comma {
          return None;
        }
        Whitespace();
      }
      assert ParseLiteral(Ahead()).Fail?;
      return None;
    }

    /** The whole text: white space, one object, white space. */
    method Parse() returns (r: Option<map<Text, Value>>)
      requires Valid() && offset == 0
      modifies this
      ensures r == RecordIn(text)
    {
      assert Ahead() == text;
      Whitespace();
      r := ReadObject(0);
      if r.None? {
        return None;
      }
      Whitespace();
      assert Ahead() == [] <==> offset == |text|;
      return if offset == |text| then r else None;
    }
  }
}
