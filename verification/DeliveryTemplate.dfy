/** How a trigger delivery fills an automation's prompt template: every reference is replaced in one
    pass over the template, and what replaces it is never looked at again. */
module DeliveryTemplate {
  import opened Options

  datatype Reference = Prompt | Parameter(name: string)

  const OPENING := "{{delivery."
  const PROMPT := "prompt"
  const PARAMETERS := "parameters."
  const CLOSING := "}}"
  const MAX_NAME := 64

  predicate Letter(c: char) { 'a' <= c <= 'z' || 'A' <= c <= 'Z' }
  predicate NameChar(c: char) { Letter(c) || '0' <= c <= '9' || c == '_' }

  predicate ValidName(name: string) {
    1 <= |name| <= MAX_NAME && Letter(name[0]) && forall c :: c in name ==> NameChar(c)
  }

  /** By code point: a letter, an underscore, or a decimal digit. */
  predicate Word(c: int, digits: bool) {
    65 <= c < 91 || 97 <= c < 123 || (digits && (c == 95 || 48 <= c < 58))
  }

  /** A name is a letter, followed by at most 63 letters, digits and underscores. */
  lemma NamesAre(name: string)
    ensures ValidName(name) <==>
      1 <= |name| < 65 && Word(name[0] as int, false) && forall i :: 0 <= i < |name| ==> Word(name[i] as int, true)
  {
    assert (forall c :: c in name ==> NameChar(c)) <==> (forall i :: 0 <= i < |name| ==> NameChar(name[i]));
  }

  predicate ValidReference(r: Reference) { r.Parameter? ==> ValidName(r.name) }

  /** A reference as a template writes it. */
  function Written(r: Reference): (t: string)
    ensures |t| > 0
  {
    OPENING + (if r.Prompt? then PROMPT else PARAMETERS + r.name) + CLOSING
  }

  // ----- finding a reference -----

  function NameRun(t: string): string {
    if t == "" || !NameChar(t[0]) then "" else [t[0]] + NameRun(t[1..])
  }

  predicate Starts(t: string, prefix: string) { prefix <= t }

  /** The reference that `t` starts with. */
  function ReferenceAt(t: string): (r: Option<Reference>)
    ensures r.Some? ==> ValidReference(r.value)
  {
    if !Starts(t, OPENING) then None
    else
      var body := t[|OPENING|..];
      if Starts(body, PROMPT + CLOSING) then Some(Prompt)
      else if !Starts(body, PARAMETERS) then None
      else
        var name := NameRun(body[|PARAMETERS|..]);
        NameRunIs(body[|PARAMETERS|..]);
        if ValidName(name) && Starts(body[|PARAMETERS| + |name|..], CLOSING) then Some(Parameter(name)) else None
  }

  lemma {:induction false} NameRunIs(t: string)
    ensures |NameRun(t)| <= |t| && NameRun(t) == t[..|NameRun(t)|]
    decreases |t|
  {
    if t != "" && NameChar(t[0]) {
      NameRunIs(t[1..]);
    }
  }

  lemma {:induction false} NameRunStops(name: string, rest: string)
    requires (forall c :: c in name ==> NameChar(c)) && (rest == "" || !NameChar(rest[0]))
    ensures NameRun(name + rest) == name
    decreases |name|
  {
    if name == "" {
      assert name + rest == rest;
    } else {
      assert name[0] in name;
      assert (name + rest)[1..] == name[1..] + rest;
      NameRunStops(name[1..], rest);
    }
  }

  lemma FoundPrompt(body: string)
    requires Starts(body, PROMPT + CLOSING)
    ensures Starts(OPENING + body, Written(Prompt))
  {
    assert Written(Prompt) == OPENING + (PROMPT + CLOSING);
    assert body == (PROMPT + CLOSING) + body[|PROMPT + CLOSING|..];
    assert OPENING + body == Written(Prompt) + body[|PROMPT + CLOSING|..];
  }

  lemma Regrouped(a: string, b: string, c: string, d: string, rest: string)
    ensures a + (b + (c + (d + rest))) == (a + (b + c) + d) + rest
  {
  }

  lemma FoundParameter(after: string, name: string)
    requires name == NameRun(after) && |name| <= |after| && Starts(after[|name|..], CLOSING)
    ensures Starts(OPENING + (PARAMETERS + after), Written(Parameter(name)))
  {
    NameRunIs(after);
    var rest := after[|name|..][|CLOSING|..];
    Behind(after, name);
    Behind(after[|name|..], CLOSING);
    Regrouped(OPENING, PARAMETERS, name, CLOSING, rest);
  }

  lemma Behind(t: string, prefix: string)
    requires Starts(t, prefix)
    ensures t == prefix + t[|prefix|..]
  {
  }

  /** What is found is written there. */
  lemma FoundIsWritten(t: string)
    requires ReferenceAt(t).Some?
    ensures Starts(t, Written(ReferenceAt(t).value))
  {
    var body := t[|OPENING|..];
    assert t == OPENING + body;
    if ReferenceAt(t).value.Prompt? {
      FoundPrompt(body);
    } else {
      var after := body[|PARAMETERS|..];
      NameRunIs(after);
      assert body == PARAMETERS + after;
      assert body[|PARAMETERS| + |NameRun(after)|..] == after[|NameRun(after)|..];
      FoundParameter(after, NameRun(after));
    }
  }

  lemma WrittenPromptIsFound(rest: string)
    ensures ReferenceAt(Written(Prompt) + rest) == Some(Prompt)
  {
    var t := Written(Prompt) + rest;
    assert t == OPENING + ((PROMPT + CLOSING) + rest);
    assert t[|OPENING|..] == (PROMPT + CLOSING) + rest;
  }

  lemma NotThePrompt(after: string)
    ensures !Starts(PARAMETERS + after, PROMPT + CLOSING)
  {
    assert (PARAMETERS + after)[1] == 'a' && (PROMPT + CLOSING)[1] == 'r';
  }

  lemma ParameterBehind(after: string, name: string)
    requires ValidName(name) && NameRun(after) == name && |name| <= |after| && Starts(after[|name|..], CLOSING)
    ensures ReferenceAt(OPENING + (PARAMETERS + after)) == Some(Parameter(name))
  {
    var body := PARAMETERS + after;
    NotThePrompt(after);
    assert (OPENING + body)[|OPENING|..] == body && body[|PARAMETERS|..] == after;
    assert body[|PARAMETERS| + |name|..] == after[|name|..];
  }

  lemma WrittenParameterIsFound(name: string, rest: string)
    requires ValidName(name)
    ensures ReferenceAt(Written(Parameter(name)) + rest) == Some(Parameter(name))
  {
    Regrouped(OPENING, PARAMETERS, name, CLOSING, rest);
    NameRunStops(name, CLOSING + rest);
    ParameterBehind(name + (CLOSING + rest), name);
  }

  /** What is written is found, whatever follows it. */
  lemma WrittenIsFound(r: Reference, rest: string)
    requires ValidReference(r)
    ensures ReferenceAt(Written(r) + rest) == Some(r)
  {
    if r.Prompt? { WrittenPromptIsFound(rest); } else { WrittenParameterIsFound(r.name, rest); }
  }

  // ----- one pass -----

  /** A template as its references and the characters between them. */
  datatype Pieces = Nil | Char(c: char, more: Pieces) | Ref(r: Reference, more: Pieces)

  function Print(ps: Pieces): string {
    match ps
    case Nil => ""
    case Char(c, more) => [c] + Print(more)
    case Ref(r, more) => Written(r) + Print(more)
  }

  /** The leftmost reading of a template. */
  function Read(t: string): Pieces
    decreases |t|
  {
    if t == "" then Nil
    else
      var found := ReferenceAt(t);
      if found.None? then Char(t[0], Read(t[1..]))
      else
        FoundIsWritten(t);
        Ref(found.value, Read(t[|Written(found.value)|..]))
  }

  /** A global replacement: the pass continues behind each match, and never in what replaced it. */
  function Replace(t: string, values: Reference -> string): string
    decreases |t|
  {
    if t == "" then ""
    else
      var found := ReferenceAt(t);
      if found.None? then [t[0]] + Replace(t[1..], values)
      else
        FoundIsWritten(t);
        values(found.value) + Replace(t[|Written(found.value)|..], values)
  }

  function Fill(ps: Pieces, values: Reference -> string): string {
    match ps
    case Nil => ""
    case Char(c, more) => [c] + Fill(more, values)
    case Ref(r, more) => values(r) + Fill(more, values)
  }

  /** Every valid reference is read as one: no character of a reading begins one. */
  predicate Leftmost(ps: Pieces) {
    match ps
    case Nil => true
    case Char(_, more) => ReferenceAt(Print(ps)).None? && Leftmost(more)
    case Ref(r, more) => ValidReference(r) && Leftmost(more)
  }

  lemma {:induction false} ReadingPrints(t: string)
    ensures Print(Read(t)) == t && Leftmost(Read(t))
    decreases |t|
  {
    if t != "" {
      var found := ReferenceAt(t);
      if found.None? {
        ReadingPrints(t[1..]);
        assert t == [t[0]] + t[1..];
      } else {
        FoundIsWritten(t);
        var w := Written(found.value);
        ReadingPrints(t[|w|..]);
        assert t == w + t[|w|..];
      }
    }
  }

  lemma {:induction false} LeftmostIsRead(ps: Pieces)
    requires Leftmost(ps)
    ensures Read(Print(ps)) == ps
    decreases ps
  {
    match ps
    case Nil =>
    case Char(c, more) =>
      assert Print(ps)[1..] == Print(more);
      LeftmostIsRead(more);
    case Ref(r, more) =>
      WrittenIsFound(r, Print(more));
      assert Print(ps)[|Written(r)|..] == Print(more);
      LeftmostIsRead(more);
  }

  /** A template has exactly one leftmost reading. */
  lemma ReadingIsUnique(t: string, ps: Pieces)
    ensures Leftmost(ps) && Print(ps) == t <==> ps == Read(t)
  {
    ReadingPrints(t);
    if Leftmost(ps) && Print(ps) == t { LeftmostIsRead(ps); }
  }

  /** Substitution is a single pass: whatever the values hold, references included, the result is the
      template's one reading with each reference replaced by its value, copied as it is. */
  lemma {:induction false} SubstitutionIsSinglePass(ps: Pieces, values: Reference -> string)
    requires Leftmost(ps)
    ensures Replace(Print(ps), values) == Fill(ps, values)
    decreases ps
  {
    match ps
    case Nil =>
    case Char(_, more) =>
      assert Print(ps)[1..] == Print(more);
      SubstitutionIsSinglePass(more, values);
    case Ref(r, more) =>
      WrittenIsFound(r, Print(more));
      assert Print(ps)[|Written(r)|..] == Print(more);
      SubstitutionIsSinglePass(more, values);
  }

  // ----- missing values -----

  datatype Delivery = Delivery(prompt: Option<string>, parameters: Option<map<string, string>>)

  /** What every object has without being given it, as text: names such as `constructor` are inherited. */
  type Inherited = map<string, string>

  /** Reads a delivered parameter; where parameters are there at all, an inherited name is too. */
  function Lookup(inherited: Inherited, d: Delivery, name: string): Option<string> {
    if d.parameters.None? then None
    else if name in d.parameters.value then Some(d.parameters.value[name])
    else if name in inherited then Some(inherited[name])
    else None
  }

  function ValueOf(inherited: Inherited, d: Delivery, r: Reference): string {
    var value := if r.Prompt? then d.prompt else Lookup(inherited, d, r.name);
    if value.Some? then value.value else ""
  }

  function Values(inherited: Inherited, d: Delivery): Reference -> string { r => ValueOf(inherited, d, r) }

  predicate Delivered(d: Delivery, name: string) { d.parameters.Some? && name in d.parameters.value }

  /** The delivery omits the referenced value. */
  predicate Omits(d: Delivery, r: Reference) {
    if r.Prompt? then d.prompt.None? else !Delivered(d, r.name)
  }

  predicate References(ps: Pieces, r: Reference) {
    match ps
    case Nil => false
    case Char(_, more) => References(more, r)
    case Ref(q, more) => q == r || References(more, r)
  }

  function FirstMissingParameter(ps: Pieces, inherited: Inherited, d: Delivery): Option<string> {
    match ps
    case Nil => None
    case Char(_, more) => FirstMissingParameter(more, inherited, d)
    case Ref(r, more) =>
      if r.Parameter? && Lookup(inherited, d, r.name).None? then Some(r.name) else FirstMissingParameter(more, inherited, d)
  }

  predicate Includes(t: string, part: string)
    decreases |t|
  {
    part <= t || (t != "" && Includes(t[1..], part))
  }

  datatype Outcome = Prompted(text: string) | OmittedPrompt | OmittedParameter(name: string)

  /** The prompt a delivery starts its work with: the filled template, and a prompt that it did not
      place behind it. `reject` refuses a delivery that omits what the template refers to. */
  function Materialize(t: string, inherited: Inherited, d: Delivery, reject: bool): Outcome {
    var placed := Includes(t, Written(Prompt));
    var missing := FirstMissingParameter(Read(t), inherited, d);
    if placed && d.prompt.None? && reject then OmittedPrompt
    else if reject && missing.Some? then OmittedParameter(missing.value)
    else
      var text := Replace(t, Values(inherited, d));
      Prompted(if d.prompt.Some? && !placed then text + (if text == "" then "" else "\n\n") + d.prompt.value else text)
  }

  lemma StartIsFound(t: string)
    requires Starts(t, Written(Prompt))
    ensures ReferenceAt(t) == Some(Prompt)
  {
    assert t == Written(Prompt) + t[|Written(Prompt)|..];
    WrittenIsFound(Prompt, t[|Written(Prompt)|..]);
  }

  /** Looking for the prompt's reference anywhere in the text is looking for it in the reading: a
      written reference overlaps no other. */
  lemma {:induction false} PlacedIsReferenced(ps: Pieces)
    requires Leftmost(ps)
    ensures Includes(Print(ps), Written(Prompt)) <==> References(ps, Prompt)
    decreases ps
  {
    match ps
    case Nil =>
    case Char(c, more) =>
      assert Print(ps)[1..] == Print(more);
      PlacedIsReferenced(more);
      if Starts(Print(ps), Written(Prompt)) { StartIsFound(Print(ps)); }
    case Ref(r, more) =>
      PlacedIsReferenced(more);
      SkipReference(r, Print(more));
  }

  /** Behind the first character of a written reference, the next reference starts after it. */
  lemma SkipReference(r: Reference, rest: string)
    requires ValidReference(r)
    ensures Includes(Written(r) + rest, Written(Prompt)) <==> r == Prompt || Includes(rest, Written(Prompt))
  {
    var w := Written(r);
    if r == Prompt {
      assert Written(Prompt) <= w + rest;
    } else {
      NotAtStart(r, rest);
      assert (w + rest)[1..] == w[1..] + rest;
      NoBraces(r);
      SkipPlain(w[1..], rest);
    }
  }

  lemma NotAtStart(r: Reference, rest: string)
    requires ValidReference(r) && r != Prompt
    ensures !(Written(Prompt) <= Written(r) + rest)
  {
    WrittenIsFound(r, rest);
    if Starts(Written(r) + rest, Written(Prompt)) { StartIsFound(Written(r) + rest); }
  }

  /** No "{{" inside a text, nor across its end. */
  predicate Plain(t: string)
    decreases |t|
  {
    t == "" || ((t[0] != '{' || (1 < |t| && t[1] != '{')) && Plain(t[1..]))
  }

  predicate Braceless(t: string) { forall c :: c in t ==> c != '{' }

  lemma {:induction false} BracelessIsPlain(t: string)
    requires Braceless(t)
    ensures Plain(t)
    decreases |t|
  {
    if t != "" {
      assert t[0] in t && forall c :: c in t[1..] ==> c in t;
      BracelessIsPlain(t[1..]);
    }
  }

  const DELIVERY := "delivery."

  lemma FixedTextsAreBraceless()
    ensures Braceless(DELIVERY) && Braceless(PROMPT) && Braceless(PARAMETERS) && Braceless(CLOSING)
  {
  }

  /** One brace before a text without any. */
  lemma OneBrace(d: string, name: string, end: string)
    requires Braceless(d) && Braceless(name) && Braceless(end) && d != "" && d[0] != '{'
    ensures Plain("{" + (d + name + end))
  {
    var rest := d + name + end;
    BracelessIsPlain(rest);
    assert ("{" + rest)[1..] == rest && rest[0] == d[0] && ("{" + rest)[1] == rest[0];
  }

  lemma NoBraces(r: Reference)
    requires ValidReference(r)
    ensures Plain(Written(r)[1..])
  {
    FixedTextsAreBraceless();
    var name := if r.Prompt? then PROMPT else PARAMETERS + r.name;
    assert OPENING == "{" + ("{" + DELIVERY);
    BehindFirst("{", "{", DELIVERY, name, CLOSING);
    OneBrace(DELIVERY, name, CLOSING);
  }

  lemma BehindFirst(first: string, second: string, a: string, b: string, c: string)
    requires |first| == 1
    ensures ((first + (second + a)) + b + c)[1..] == second + (a + b + c)
  {
  }

  lemma {:induction false} SkipPlain(t: string, rest: string)
    requires Plain(t)
    ensures Includes(t + rest, Written(Prompt)) <==> Includes(rest, Written(Prompt))
    decreases |t|
  {
    if t == "" {
      assert t + rest == rest;
    } else {
      assert (t + rest)[1..] == t[1..] + rest;
      SkipPlain(t[1..], rest);
      assert Written(Prompt)[0] == '{' && Written(Prompt)[1] == '{';
    }
  }

  lemma {:induction false} FirstMissingIs(ps: Pieces, inherited: Inherited, d: Delivery)
    ensures var missing := FirstMissingParameter(ps, inherited, d);
      && (missing.Some? ==> References(ps, Parameter(missing.value)) && Lookup(inherited, d, missing.value).None?)
      && (missing.None? <==> forall name :: References(ps, Parameter(name)) ==> Lookup(inherited, d, name).Some?)
    decreases ps
  {
    match ps
    case Nil =>
    case Char(_, more) => FirstMissingIs(more, inherited, d);
    case Ref(r, more) =>
      FirstMissingIs(more, inherited, d);
      if r.Parameter? { assert References(ps, r); }
  }

  /** A reference that is refused: its value is omitted, and no inherited one stands in for it. */
  predicate Refused(inherited: Inherited, d: Delivery, r: Reference) {
    Omits(d, r) && (r.Prompt? || d.parameters.None? || r.name !in inherited)
  }

  /** A rejecting automation refuses a delivery exactly when its template refers to a value that the
      delivery omits, other than by an inherited name beside delivered parameters; otherwise, and always
      when it does not reject, it gets the filled template. */
  lemma RefusesExactly(t: string, inherited: Inherited, d: Delivery, reject: bool)
    ensures !Materialize(t, inherited, d, reject).Prompted? <==> reject && exists r :: References(Read(t), r) && Refused(inherited, d, r)
    ensures Materialize(t, inherited, d, reject).Prompted? && References(Read(t), Prompt) ==>
      Materialize(t, inherited, d, reject) == Prompted(Fill(Read(t), Values(inherited, d)))
  {
    ReadingPrints(t);
    PlacedIsReferenced(Read(t));
    FirstMissingIs(Read(t), inherited, d);
    SubstitutionIsSinglePass(Read(t), Values(inherited, d));
    var missing := FirstMissingParameter(Read(t), inherited, d);
    assert missing.Some? ==> Refused(inherited, d, Parameter(missing.value));
    assert d.prompt.None? <==> Refused(inherited, d, Prompt);
    forall r | References(Read(t), r) && Refused(inherited, d, r) ensures r == Prompt || missing.Some? {
      if r.Parameter? { assert References(Read(t), Parameter(r.name)); }
    }
  }

  /** What an accepted delivery starts its work with: the filled template, and behind it, after an empty
      line where there is text, a delivered prompt that the template does not refer to. */
  lemma PromptFollows(t: string, inherited: Inherited, d: Delivery, reject: bool)
    requires Materialize(t, inherited, d, reject).Prompted?
    ensures var filled := Fill(Read(t), Values(inherited, d));
      Materialize(t, inherited, d, reject).text ==
        if d.prompt.None? || References(Read(t), Prompt) then filled
        else if filled == "" then d.prompt.value
        else filled + "\n\n" + d.prompt.value
  {
    ReadingPrints(t);
    PlacedIsReferenced(Read(t));
    SubstitutionIsSinglePass(Read(t), Values(inherited, d));
  }

  /** What stands for a reference: the delivered value, an inherited one beside delivered parameters, and
      nothing where neither is. */
  lemma ValuesAre(inherited: Inherited, d: Delivery, r: Reference)
    ensures Values(inherited, d)(r) ==
      match r
      case Prompt => if d.prompt.Some? then d.prompt.value else ""
      case Parameter(name) =>
        if d.parameters.Some? && name in d.parameters.value then d.parameters.value[name]
        else if d.parameters.Some? && name in inherited then inherited[name]
        else ""
  {
  }

  /** So a rejecting automation refuses every omission exactly when none of the names that its template
      refers to is omitted beside delivered parameters and inherited. */
  lemma RefusesEveryOmission(t: string, inherited: Inherited, d: Delivery)
    requires exists r :: References(Read(t), r) && Omits(d, r)
    ensures Materialize(t, inherited, d, true).Prompted? <==>
      d.parameters.Some? && forall r :: References(Read(t), r) && Omits(d, r) ==> r.Parameter? && r.name in inherited
  {
    RefusesExactly(t, inherited, d, true);
    if Materialize(t, inherited, d, true).Prompted? {
      forall r | References(Read(t), r) && Omits(d, r) ensures d.parameters.Some? && r.Parameter? && r.name in inherited {
        assert !Refused(inherited, d, r);
      }
    }
  }

  lemma OneReference(r: Reference, values: Reference -> string)
    requires ValidReference(r)
    ensures Leftmost(Ref(r, Nil)) && Print(Ref(r, Nil)) == Written(r)
    ensures Read(Written(r)) == Ref(r, Nil) && Replace(Written(r), values) == values(r)
  {
    assert Print(Ref(r, Nil)) == Written(r) + "" == Written(r);
    LeftmostIsRead(Ref(r, Nil));
    SubstitutionIsSinglePass(Ref(r, Nil), values);
    assert Fill(Ref(r, Nil), values) == values(r) + "" == values(r);
  }

  /** A rejecting automation accepts a delivery that omits a referenced parameter with an inherited
      name, and its prompt receives what is inherited. */
  lemma InheritedNameIsNotRefused(name: string, inherited: Inherited, delivered: map<string, string>)
    requires ValidName(name) && name in inherited && name !in delivered
    ensures var t, d := Written(Parameter(name)), Delivery(None, Some(delivered));
      References(Read(t), Parameter(name)) && Omits(d, Parameter(name))
      && Materialize(t, inherited, d, true) == Prompted(inherited[name])
  {
    var r, d := Parameter(name), Delivery(None, Some(delivered));
    OneReference(r, Values(inherited, d));
    PlacedIsReferenced(Ref(r, Nil));
    assert Lookup(inherited, d, name) == Some(inherited[name]);
    assert Values(inherited, d)(r) == ValueOf(inherited, d, r) == inherited[name];
    FirstMissingIs(Ref(r, Nil), inherited, d);
    assert FirstMissingParameter(Ref(r, Nil), inherited, d).None?;
    assert References(Ref(r, Nil), r) && !References(Ref(r, Nil), Prompt);
  }

  /** For example by the name `constructor`. */
  lemma ConstructorIsNotRefused(native: string)
    ensures Materialize(Written(Parameter("constructor")), map["constructor" := native],
                        Delivery(None, Some(map["issue" := "1"])), true) == Prompted(native)
  {
    assert "issue"[0] != "constructor"[0];
    InheritedNameIsNotRefused("constructor", map["constructor" := native], map["issue" := "1"]);
  }
}
