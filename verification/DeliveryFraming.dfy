/** How an accepted trigger delivery is framed inside the prompt it starts: its context as JSON, with
    every "<" escaped, between an opening and a closing tag, before a prompt that may hold anything. */
module DeliveryFraming {
  import opened JsonText
  import opened TriggerRecords
  import opened CanonicalJson
  import opened Options

  const LESS: Unit := 0x3C
  const NEWLINE: Unit := 0x0A

  /** "<automation-trigger-delivery>" */
  const OPENING: Text := [LESS] + TAG_NAME + [0x3E]

  /** "</automation-trigger-delivery>" */
  const CLOSING: Text := [LESS, SLASH] + TAG_NAME + [0x3E]

  /** "automation-trigger-delivery" */
  const TAG_NAME: Text := [
    0x61, 0x75, 0x74, 0x6F, 0x6D, 0x61, 0x74, 0x69, 0x6F, 0x6E, 0x2D,
    0x74, 0x72, 0x69, 0x67, 0x67, 0x65, 0x72, 0x2D,
    0x64, 0x65, 0x6C, 0x69, 0x76, 0x65, 0x72, 0x79]

  // ----- JSON.stringify -----

  /** Keys in insertion order, no white space. */
  function Tree(v: JsValue): Node {
    match v
    case JsString(t) => Str(Quote(t))
    case JsObject(ps) => Obj([], TreeMembers(ps))
  }

  function TreeMembers(ps: Props): Members {
    if ps.NoProps? then End else Member(Compact(ps.key, Tree(ps.value)), [], TreeMembers(ps.more))
  }

  function Stringify(v: JsValue): Text {
    Print(Tree(v))
  }

  lemma {:induction false} TreeMeans(v: JsValue)
    ensures Valid(Tree(v)) && Meaning(Tree(v)) == JsMeaning(v)
  {
    match v
    case JsString(t) =>
      QuoteMeans(t);
    case JsObject(ps) =>
      TreeMembersMean(ps);
  }

  lemma {:induction false} TreeMembersMean(ps: Props)
    ensures ValidMembers(TreeMembers(ps)) && Fields(TreeMembers(ps)) == JsFields(ps)
  {
    if ps.Prop? {
      QuoteMeans(ps.key);
      TreeMeans(ps.value);
      TreeMembersMean(ps.more);
      assert ValidEntry(TreeMembers(ps).entry);
    }
  }

  // ----- escaping "<" in a JSON text -----

  /** text.replace(/</g, "\\u003c") */
  function EscapeLess(t: Text): Text {
    if t == [] then [] else (if t[0] == LESS then PrintChar(EscapeUnit(LESS)) else [t[0]]) + EscapeLess(t[1..])
  }

  lemma {:induction false} NoLessLeft(t: Text)
    ensures LESS !in EscapeLess(t)
  {
    if t != [] {
      NoLessLeft(t[1..]);
    }
  }

  lemma {:induction false} EscapeConcat(a: Text, b: Text)
    ensures EscapeLess(a + b) == EscapeLess(a) + EscapeLess(b)
  {
    if a == [] {
      assert a + b == b;
    } else {
      var first := if a[0] == LESS then PrintChar(EscapeUnit(LESS)) else [a[0]];
      EscapeConcat(a[1..], b);
      assert (a + b)[0] == a[0] && (a + b)[1..] == a[1..] + b;
      Assoc(first, EscapeLess(a[1..]), EscapeLess(b));
    }
  }

  lemma {:induction false} EscapeNothing(a: Text)
    requires LESS !in a
    ensures EscapeLess(a) == a
  {
    if a != [] {
      EscapeNothing(a[1..]);
      assert a == [a[0]] + a[1..];
    }
  }

  lemma EscapeAfter(a: Text, b: Text)
    requires LESS !in a
    ensures EscapeLess(a + b) == a + EscapeLess(b)
  {
    EscapeConcat(a, b);
    EscapeNothing(a);
  }

  lemma SpaceHasNoLess(w: Text)
    requires Space(w)
    ensures LESS !in w
  {
  }

  /** The same tree with "<" written as an escape in every literal. */
  function Escaped(n: Node): Node {
    match n
    case Str(l) => Str(EscapedLiteral(l))
    case Obj(lead, ms) => Obj(lead, EscapedMembers(ms))
  }

  function EscapedMembers(ms: Members): Members {
    if ms.End? then End else Member(EscapedEntry(ms.entry), ms.afterComma, EscapedMembers(ms.more))
  }

  function EscapedEntry(e: Entry): Entry {
    Entry(e.key.(name := EscapedLiteral(e.key.name)), Escaped(e.value), e.afterValue)
  }

  function EscapedLiteral(l: Literal): Literal {
    if l.Empty? then Empty else Then(if l.first == Plain(LESS) then EscapeUnit(LESS) else l.first, EscapedLiteral(l.more))
  }

  lemma {:induction false} LiteralEscapes(l: Literal, rest: Text)
    requires ValidLiteral(l)
    ensures EscapeLess(CharsTo(l, rest)) == CharsTo(EscapedLiteral(l), EscapeLess(rest))
    ensures EscapeLess(LiteralTo(l, rest)) == LiteralTo(EscapedLiteral(l), EscapeLess(rest))
    ensures ValidLiteral(EscapedLiteral(l)) && Decode(EscapedLiteral(l)) == Decode(l)
  {
    EscapeMeans(LESS);
    match l
    case Empty =>
      EscapeAfter([QUOTE], rest);
    case Then(c, more) =>
      LiteralEscapes(more, rest);
      EscapeConcat(PrintChar(c), CharsTo(more, rest));
      CharEscapes(c);
    EscapeAfter([QUOTE], CharsTo(l, rest));
  }

  lemma CharEscapes(c: Char)
    requires ValidChar(c)
    ensures EscapeLess(PrintChar(c)) == PrintChar(if c == Plain(LESS) then EscapeUnit(LESS) else c)
  {
    if c == Plain(LESS) {
      assert PrintChar(EscapeUnit(LESS)) + [] == PrintChar(EscapeUnit(LESS));
      assert [LESS][1..] == [];
    } else {
      EscapeNothing(PrintChar(c));
    }
  }

  /** Escaping "<" anywhere in a JSON text yields a text of the same tree: "<" occurs only in strings. */
  lemma {:induction false} NodeEscapes(n: Node, rest: Text)
    requires Valid(n)
    ensures EscapeLess(NodeTo(n, rest)) == NodeTo(Escaped(n), EscapeLess(rest))
    ensures Valid(Escaped(n)) && Meaning(Escaped(n)) == Meaning(n)
  {
    match n
    case Str(l) =>
      LiteralEscapes(l, rest);
    case Obj(lead, ms) =>
      MembersEscape(ms, rest);
      SpaceHasNoLess(lead);
      EscapeAfter(lead, MembersTo(ms, rest));
      EscapeAfter([OPEN], lead + MembersTo(ms, rest));
  }

  lemma {:induction false} EntryEscapes(e: Entry, rest: Text)
    requires ValidEntry(e)
    ensures EscapeLess(EntryTo(e, rest)) == EntryTo(EscapedEntry(e), EscapeLess(rest))
    ensures ValidEntry(EscapedEntry(e)) && Meaning(EscapedEntry(e).value) == Meaning(e.value)
    ensures Decode(EscapedEntry(e).key.name) == Decode(e.key.name)
  {
    SpaceHasNoLess(e.afterValue);
    SpaceHasNoLess(e.key.afterColon);
    SpaceHasNoLess(e.key.beforeColon);
    NodeEscapes(e.value, e.afterValue + rest);
    var value := NodeTo(e.value, e.afterValue + rest);
    EscapeAfter(e.afterValue, rest);
    EscapeAfter(e.key.afterColon, value);
    EscapeAfter([COLON], e.key.afterColon + value);
    EscapeAfter(e.key.beforeColon, [COLON] + (e.key.afterColon + value));
    LiteralEscapes(e.key.name, e.key.beforeColon + ([COLON] + (e.key.afterColon + value)));
  }

  lemma {:induction false} MembersEscape(ms: Members, rest: Text)
    requires ValidMembers(ms)
    ensures EscapeLess(MembersTo(ms, rest)) == MembersTo(EscapedMembers(ms), EscapeLess(rest))
    ensures ValidMembers(EscapedMembers(ms)) && Fields(EscapedMembers(ms)) == Fields(ms)
  {
    EscapeAfter([CLOSE], rest);
    if ms.Member? {
      assert ValidEntry(ms.entry);
      MembersEscape(ms.more, rest);
      SpaceHasNoLess(ms.afterComma);
      EscapeAfter(ms.afterComma, MembersTo(ms.more, rest));
      EscapeAfter([COMMA], ms.afterComma + MembersTo(ms.more, rest));
      EntryEscapes(ms.entry, NextTo(ms.more, ms.afterComma, rest));
    }
  }

  // ----- the framed prompt -----

  /** The delivery context: where it came from and its accepted parameters, in this key order. */
  function Context(triggerId: Text, eventId: Text, parameters: Props, selector: Option<Text>): JsValue {
    JsObject(
      Prop(TRIGGER_ID, JsString(triggerId),
      Prop(EVENT_ID, JsString(eventId),
      Prop(PARAMETERS, JsObject(parameters),
      if selector.None? then NoProps else Prop(TARGET_SELECTOR, JsString(selector.value), NoProps)))))
  }

  /** "triggerId", "eventId", "parameters", "targetSelector" */
  const TRIGGER_ID: Text := [0x74, 0x72, 0x69, 0x67, 0x67, 0x65, 0x72, 0x49, 0x64]
  const EVENT_ID: Text := [0x65, 0x76, 0x65, 0x6E, 0x74, 0x49, 0x64]
  const PARAMETERS: Text := [0x70, 0x61, 0x72, 0x61, 0x6D, 0x65, 0x74, 0x65, 0x72, 0x73]
  const TARGET_SELECTOR: Text := [0x74, 0x61, 0x72, 0x67, 0x65, 0x74, 0x53, 0x65, 0x6C, 0x65, 0x63, 0x74, 0x6F, 0x72]

  function Between(context: JsValue): Text {
    [NEWLINE] + EscapeLess(Stringify(context)) + [NEWLINE]
  }

  function Frame(context: JsValue, prompt: Text): Text {
    OPENING + Between(context) + CLOSING + if prompt == [] then [] else [NEWLINE, NEWLINE] + prompt
  }

  predicate OccursAt(pattern: Text, text: Text, i: nat) {
    i + |pattern| <= |text| && text[i..i + |pattern|] == pattern
  }

  /** The first occurrence of a pattern. */
  ghost predicate FirstAt(pattern: Text, text: Text, i: nat) {
    OccursAt(pattern, text, i) && forall j: nat :: j < i ==> !OccursAt(pattern, text, j)
  }

  /** Where the tags fall in a framed prompt, whatever the prompt and the parameters contain. */
  lemma TagsFound(json: Text, tail: Text)
    requires LESS !in json
    ensures var text := OPENING + json + CLOSING + tail;
      && FirstAt(OPENING, text, 0)
      && FirstAt(CLOSING, text, |OPENING| + |json|)
      && text[|OPENING|..|OPENING| + |json|] == json
  {
    var text := OPENING + json + CLOSING + tail;
    var at := |OPENING| + |json|;
    assert text[at..at + |CLOSING|] == CLOSING;
    forall j: nat | j < at ensures !OccursAt(CLOSING, text, j) {
      if j == 0 {
        Mismatch(CLOSING, text, 0, 1);
      } else {
        if j < |OPENING| {
          NoLessInside(j);
          assert text[j] == OPENING[j];
        } else {
          assert text[j] == json[j - |OPENING|];
        }
        Mismatch(CLOSING, text, j, 0);
      }
    }
  }

  lemma Mismatch(pattern: Text, text: Text, j: nat, k: nat)
    requires k < |pattern| && j + k < |text| && text[j + k] != pattern[k]
    ensures !OccursAt(pattern, text, j)
  {
    assert j + |pattern| <= |text| ==> text[j..j + |pattern|][k] == text[j + k];
  }

  lemma NoLessInside(j: nat)
    requires 0 < j < |OPENING|
    ensures OPENING[j] != LESS
  {
    if j - 1 < |TAG_NAME| {
      assert OPENING[j] == TAG_NAME[j - 1];
      assert forall u :: u in TAG_NAME ==> u != LESS;
    }
  }

  /** The main result: the text between the first opening tag and the first closing tag is white
      space around one JSON object that means exactly the delivery context; the trigger parser reads
      it back whenever it accepts such a tree at all. Behind the closing tag stands the prompt, after an
      empty line, and nothing where there is none. */
  lemma FrameRoundTrip(context: JsValue, prompt: Text) returns (between: Text, n: Node)
    requires context.JsObject?
    ensures FirstAt(OPENING, Frame(context, prompt), 0)
    ensures FirstAt(CLOSING, Frame(context, prompt), |OPENING| + |between|)
    ensures Frame(context, prompt)[|OPENING|..|OPENING| + |between|] == between
    ensures Frame(context, prompt)[|OPENING| + |between| + |CLOSING|..] == if prompt == [] then [] else [NEWLINE, NEWLINE] + prompt
    ensures Valid(n) && Meaning(n) == JsMeaning(context) && between == [NEWLINE] + NodeTo(n, [NEWLINE])
    ensures Proper(context) && JsLevels(context) <= MAX_DEPTH + 1 && JsWellFormed(context) ==>
              RecordIn(between) == Some(JsFields(context.props))
  {
    n := BetweenMeans(context);
    between := Between(context);
    TagsFound(between, if prompt == [] then [] else [NEWLINE, NEWLINE] + prompt);
    if Proper(context) && JsLevels(context) <= MAX_DEPTH + 1 && JsWellFormed(context) {
      ReadsBack(context, between, n);
    }
  }

  /** Accepted parameters: strings by distinct names, all well formed. */
  predicate AcceptedParameters(ps: Props) {
    ps.Prop? ==>
      && ps.value.JsString? && WellFormed(ps.key) && WellFormed(ps.value.text)
      && ps.key !in Keys(ps.more) && AcceptedParameters(ps.more)
  }

  lemma {:induction false} ParametersAreFlat(ps: Props)
    requires AcceptedParameters(ps)
    ensures ProperProps(ps) && PropLevels(ps) == 0 && PropsWellFormed(ps)
  {
    if ps.Prop? {
      ParametersAreFlat(ps.more);
    }
  }

  /** So for every accepted delivery and every prompt, the framed text reads back to its context. */
  lemma DeliveryReadsBack(triggerId: Text, eventId: Text, parameters: Props, selector: Option<Text>, prompt: Text)
    returns (between: Text)
    requires WellFormed(triggerId) && WellFormed(eventId) && AcceptedParameters(parameters)
    requires selector.Some? ==> WellFormed(selector.value)
    ensures var context := Context(triggerId, eventId, parameters, selector);
      && FirstAt(OPENING, Frame(context, prompt), 0)
      && FirstAt(CLOSING, Frame(context, prompt), |OPENING| + |between|)
      && Frame(context, prompt)[|OPENING|..|OPENING| + |between|] == between
      && RecordIn(between) == Some(JsFields(context.props))
  {
    var n;
    KeysDiffer();
    KeysWellFormed();
    ContextFits(TRIGGER_ID, EVENT_ID, PARAMETERS, TARGET_SELECTOR, triggerId, eventId, parameters, selector);
    between, n := FrameRoundTrip(Context(triggerId, eventId, parameters, selector), prompt);
  }

  lemma ContextFits(k1: Text, k2: Text, k3: Text, k4: Text, triggerId: Text, eventId: Text, parameters: Props, selector: Option<Text>)
    requires k1 !in {k2, k3, k4} && k2 !in {k3, k4} && k3 != k4
    requires WellFormed(k1) && WellFormed(k2) && WellFormed(k3) && WellFormed(k4)
    requires WellFormed(triggerId) && WellFormed(eventId) && AcceptedParameters(parameters)
    requires selector.Some? ==> WellFormed(selector.value)
    ensures var v := JsObject(Prop(k1, JsString(triggerId), Prop(k2, JsString(eventId), Prop(k3, JsObject(parameters),
                      if selector.None? then NoProps else Prop(k4, JsString(selector.value), NoProps)))));
      Proper(v) && JsLevels(v) == 2 && JsWellFormed(v)
  {
    ParametersAreFlat(parameters);
    var p4 := NoProps;
    if selector.Some? {
      p4 := Prop(k4, JsString(selector.value), NoProps);
      OneMore(k4, JsString(selector.value), NoProps);
    }
    var p3 := Prop(k3, JsObject(parameters), p4);
    OneMore(k3, JsObject(parameters), p4);
    OneMore(k2, JsString(eventId), p3);
    OneMore(k1, JsString(triggerId), Prop(k2, JsString(eventId), p3));
  }

  lemma OneMore(key: Text, value: JsValue, more: Props)
    ensures var ps := Prop(key, value, more);
      && Keys(ps) == {key} + Keys(more)
      && (ProperProps(ps) <==> key !in Keys(more) && Proper(value) && ProperProps(more))
      && (value.JsString? ==> PropLevels(ps) == PropLevels(more))
      && (value.JsObject? ==> PropLevels(ps) == Max(1 + PropLevels(value.props), PropLevels(more)))
      && (PropsWellFormed(ps) <==> WellFormed(key) && JsWellFormed(value) && PropsWellFormed(more))
  {
    assert JsLevels(value) == if value.JsString? then 0 else 1 + PropLevels(value.props);
  }

  lemma KeysDiffer()
    ensures TRIGGER_ID !in {EVENT_ID, PARAMETERS, TARGET_SELECTOR} && EVENT_ID !in {PARAMETERS, TARGET_SELECTOR}
    ensures PARAMETERS != TARGET_SELECTOR
  {
    assert TRIGGER_ID[0] != EVENT_ID[0] && TRIGGER_ID[0] != PARAMETERS[0] && TRIGGER_ID[1] != TARGET_SELECTOR[1];
    assert EVENT_ID[0] != PARAMETERS[0] && EVENT_ID[0] != TARGET_SELECTOR[0] && PARAMETERS[0] != TARGET_SELECTOR[0];
  }

  lemma KeysWellFormed()
    ensures WellFormed(TRIGGER_ID) && WellFormed(EVENT_ID) && WellFormed(PARAMETERS) && WellFormed(TARGET_SELECTOR)
  {
    FirstKeysWellFormed();
    LastKeysWellFormed();
  }

  lemma FirstKeysWellFormed()
    ensures WellFormed(TRIGGER_ID) && WellFormed(EVENT_ID)
  {
    NoSurrogates(TRIGGER_ID);
    NoSurrogates(EVENT_ID);
  }

  lemma LastKeysWellFormed()
    ensures WellFormed(PARAMETERS) && WellFormed(TARGET_SELECTOR)
  {
    NoSurrogates(PARAMETERS);
    NoSurrogates(TARGET_SELECTOR);
  }

  lemma {:induction false} NoSurrogates(t: Text)
    requires forall i :: 0 <= i < |t| ==> t[i] < 0x80
    ensures WellFormed(t)
  {
    if t != [] {
      NoSurrogates(t[1..]);
    }
  }

  lemma BetweenMeans(context: JsValue) returns (n: Node)
    ensures n == Escaped(Tree(context)) && Valid(n) && Meaning(n) == JsMeaning(context)
    ensures Between(context) == [NEWLINE] + NodeTo(n, [NEWLINE]) && LESS !in Between(context)
  {
    TreeMeans(context);
    NodeEscapes(Tree(context), []);
    n := Escaped(Tree(context));
    NodeAppend(n, [], [NEWLINE]);
    assert [] + [NEWLINE] == [NEWLINE];
    Assoc([NEWLINE], EscapeLess(Stringify(context)), [NEWLINE]);
    NoLessLeft(Stringify(context));
  }

  lemma ReadsBack(context: JsValue, between: Text, n: Node)
    requires context.JsObject? && Proper(context) && JsLevels(context) <= MAX_DEPTH + 1 && JsWellFormed(context)
    requires n == Escaped(Tree(context)) && Valid(n) && Meaning(n) == JsMeaning(context)
    requires between == [NEWLINE] + NodeTo(n, [NEWLINE])
    ensures RecordIn(between) == Some(JsFields(context.props))
  {
    EscapedAcceptable(context);
    assert RecordSyntax(between, [NEWLINE], n, [NEWLINE]);
    AcceptsExactly(between, JsFields(context.props));
  }

  // The escaped text keeps what the trigger parser asks of a tree.

  lemma {:induction false} EscapedAcceptable(v: JsValue)
    requires Proper(v) && Valid(Escaped(Tree(v)))
    ensures Levels(Escaped(Tree(v))) == JsLevels(v)
    ensures KeysDistinct(Escaped(Tree(v)))
    ensures StringsWellFormed(Escaped(Tree(v))) <==> JsWellFormed(v)
  {
    match v
    case JsString(t) =>
      QuoteMeans(t);
      LiteralEscapes(Quote(t), []);
    case JsObject(ps) =>
      EscapedMembersAcceptable(ps);
  }

  lemma {:induction false} EscapedMembersAcceptable(ps: Props)
    requires ProperProps(ps)
    ensures var ms := EscapedMembers(TreeMembers(ps));
      && ValidMembers(ms) && Fields(ms).Keys == Keys(ps)
      && MemberLevels(ms) == PropLevels(ps) && MemberKeysDistinct(ms)
      && (MembersWellFormed(ms) <==> PropsWellFormed(ps))
  {
    TreeMembersMean(ps);
    MembersEscape(TreeMembers(ps), []);
    if ps.Prop? {
      var e := TreeMembers(ps).entry;
      QuoteMeans(ps.key);
      TreeMeans(ps.value);
      EntryEscapes(e, []);
      EscapedAcceptable(ps.value);
      EscapedMembersAcceptable(ps.more);
      assert ValidEntry(EscapedMembers(TreeMembers(ps)).entry);
    }
  }
}
