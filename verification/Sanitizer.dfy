/**
 * The audit metadata sanitizer: a walk over a possibly cyclic object graph under shared budgets of nodes and bytes.
 * Strings are sequences of UTF-16 code units; objects are rows of a graph, so a reference may lead back to itself.
 */
module Sanitizer {
  import opened Common

  type Unit = u: nat | u < 0x10000

  type Text = seq<Unit>

  /** A JavaScript value; a number carries the length of its decimal form. */
  datatype Value =
    | Null
    | Str(text: Text)
    | Number(value: real, digits: nat)
    | NonFinite
    | Boolean(flag: bool)
    | Unsupported
    | Ref(id: nat)

  /** An own enumerable property; reading it may throw. */
  datatype Property = Property(key: Text, access: Option<Value>)

  datatype Object =
    | DateObject(iso: Option<Text>)
    | Binary
    | Array(items: seq<Value>)
    | Plain(properties: Option<seq<Property>>)

  type Graph = seq<Object>

  /** The JSON value written to the audit row. */
  datatype Out =
    | NullOut
    | TextOut(text: Text)
    | NumberOut(value: real)
    | BooleanOut(flag: bool)
    | ArrayOut(elements: Elements)
    | ObjectOut(members: Members)

  datatype Elements = NoElements | Push(init: Elements, last: Out)

  datatype Members = NoMembers | Assign(init: Members, key: Text, value: Out)

  const MAX_DEPTH := 6
  const MAX_COLLECTION_ITEMS := 50
  const MAX_KEY_LENGTH := 120
  const MAX_STRING_LENGTH := 2000
  const MAX_TOTAL_BYTES := 16000
  const MAX_NODES := 500

  // --------------------------------------------------------------------------------------------- text

  predicate High(u: Unit) { 0xD800 <= u < 0xDC00 }

  predicate Low(u: Unit) { 0xDC00 <= u < 0xE000 }

  /** The bytes of the UTF-8 form; a lone surrogate is written as the three bytes of the replacement character. */
  function ByteLength(s: Text): nat {
    if s == [] then 0
    else if High(s[0]) && |s| > 1 && Low(s[1]) then 4 + ByteLength(s[2..])
    else (if s[0] < 0x80 then 1 else if s[0] < 0x800 then 2 else 3) + ByteLength(s[1..])
  }

  function First<T>(s: seq<T>, n: nat): seq<T> {
    if |s| <= n then s else s[..n]
  }

  /** The code units of a marker text, which is ASCII. */
  function Units(s: string): Text {
    seq(|s|, i requires 0 <= i < |s| => if s[i] as int < 0x10000 then s[i] as int else 0xFFFD)
  }

  /** The string before it is fitted into the budget: cut at the length limit, with an ellipsis. */
  function Candidate(value: Text): Text {
    First(value, MAX_STRING_LENGTH) + if |value| > MAX_STRING_LENGTH then [0x2026] else []
  }

  /** The shrinking loop: a quarter is cut off until the bytes fit. */
  function Shrunk(candidate: Text, available: nat): Text {
    if ByteLength(candidate) > available && candidate != []
    then Shrunk(candidate[..|candidate| * 3 / 4], available)
    else candidate
  }

  lemma {:induction false} ShrunkFits(candidate: Text, available: nat)
    ensures ByteLength(Shrunk(candidate, available)) <= available
    ensures Shrunk(candidate, available) <= candidate
    ensures ByteLength(candidate) <= available ==> Shrunk(candidate, available) == candidate
    decreases |candidate|
  {
    if ByteLength(candidate) > available && candidate != [] {
      ShrunkFits(candidate[..|candidate| * 3 / 4], available);
    }
  }

  // --------------------------------------------------------------------------------------------- keys

  const TOKENS := ["password", "token", "jwt", "secret", "authorization", "cookie", "hash", "file", "buffer", "content",
                   "request", "headers"]

  predicate Upper(u: Unit) { 0x41 <= u <= 0x5A }

  predicate Alphanumeric(u: Unit) { 0x61 <= u <= 0x7A || 0x30 <= u <= 0x39 }

  /** One code unit in lower case, as far as the tokens can tell: besides A to Z, two letters outside ASCII have an ASCII letter in it. */
  function LoweredUnit(u: Unit): Text {
    if Upper(u) then [u + 32] else if u == 0x212A then [0x6B] else if u == 0x130 then [0x69, 0x307] else [u]
  }

  function Lowered(s: Text): Text {
    if s == [] then [] else LoweredUnit(s[0]) + Lowered(s[1..])
  }

  /** A space between a lower-case letter or digit and the upper-case letter that follows it. */
  function CamelSplit(s: Text): Text {
    if |s| < 2 then s
    else if Alphanumeric(s[0]) && Upper(s[1]) then [s[0], 0x20] + CamelSplit(s[1..])
    else [s[0]] + CamelSplit(s[1..])
  }

  /** The runs of letters and digits; `run` is the one being read. */
  function Runs(s: Text, run: Text): seq<Text> {
    if s == [] then (if run == [] then [] else [run])
    else if Alphanumeric(s[0]) then Runs(s[1..], run + [s[0]])
    else (if run == [] then [] else [run]) + Runs(s[1..], [])
  }

  function Joined(tokens: seq<Text>): Text {
    if tokens == [] then [] else tokens[0] + Joined(tokens[1..])
  }

  function KeyTokens(key: Text): seq<Text> { Runs(Lowered(CamelSplit(key)), []) }

  predicate SensitiveKey(key: Text) {
    var tokens := KeyTokens(key);
    || (exists t | 0 <= t < |TOKENS| :: Units(TOKENS[t]) in tokens)
    || (exists t | 0 <= t < |TOKENS| :: Units(TOKENS[t]) <= Joined(tokens))
  }

  /** The letters and digits of a text, in order. */
  function Letters(s: Text): Text {
    if s == [] then [] else (if Alphanumeric(s[0]) then [s[0]] else []) + Letters(s[1..])
  }

  lemma {:induction false} JoinedRuns(s: Text, run: Text)
    ensures Joined(Runs(s, run)) == run + Letters(s)
  {
    if s == [] {
      assert run + [] == run;
    } else if Alphanumeric(s[0]) {
      JoinedRuns(s[1..], run + [s[0]]);
      assert run + [s[0]] + Letters(s[1..]) == run + ([s[0]] + Letters(s[1..]));
    } else {
      JoinedRuns(s[1..], []);
      JoinedPrepend(run, Runs(s[1..], []));
    }
  }

  lemma JoinedPrepend(run: Text, rest: seq<Text>)
    ensures Joined((if run == [] then [] else [run]) + rest) == run + Joined(rest)
  {
    if run == [] {
      assert [] + rest == rest;
    } else {
      assert ([run] + rest)[1..] == rest;
    }
  }

  lemma {:induction false} LettersConcat(a: Text, b: Text)
    ensures Letters(a + b) == Letters(a) + Letters(b)
  {
    if a == [] {
      assert a + b == b;
    } else {
      var u, rest := a[0], a[1..];
      LettersConcat(rest, b);
      assert a == [u] + rest;
      Regroup([u], rest, b);
      LettersPrepend(u, rest);
      LettersPrepend(u, rest + b);
      Regroup(if Alphanumeric(u) then [u] else [], Letters(rest), Letters(b));
    }
  }

  lemma Regroup(a: Text, b: Text, c: Text)
    ensures (a + b) + c == a + (b + c)
  {
  }

  lemma LettersPrepend(u: Unit, s: Text)
    ensures Letters([u] + s) == (if Alphanumeric(u) then [u] else []) + Letters(s)
  {
    assert ([u] + s)[1..] == s;
  }

  lemma LoweredPrepend(u: Unit, s: Text)
    ensures Letters(Lowered([u] + s)) == Letters(LoweredUnit(u)) + Letters(Lowered(s))
  {
    assert ([u] + s)[1..] == s;
    LettersConcat(LoweredUnit(u), Lowered(s));
  }

  lemma SpaceHasNoLetters(s: Text)
    ensures Letters(Lowered([0x20] + s)) == Letters(Lowered(s))
  {
    LoweredPrepend(0x20, s);
    LettersPrepend(0x20, []);
  }

  /** The spaces between words are the only difference the splitting makes. */
  lemma {:induction false} SplitKeepsLetters(s: Text)
    ensures Letters(Lowered(CamelSplit(s))) == Letters(Lowered(s))
  {
    if |s| >= 2 {
      var u, rest := s[0], CamelSplit(s[1..]);
      SplitKeepsLetters(s[1..]);
      assert s == [u] + s[1..];
      LoweredPrepend(u, s[1..]);
      if Alphanumeric(u) && Upper(s[1]) {
        assert CamelSplit(s) == [u] + ([0x20] + rest);
        LoweredPrepend(u, [0x20] + rest);
        SpaceHasNoLetters(rest);
      } else {
        LoweredPrepend(u, rest);
      }
    }
  }

  /** The words of a key, joined, are its letters and digits in lower case, however they are separated. */
  lemma JoinedWords(key: Text)
    ensures Joined(KeyTokens(key)) == Letters(Lowered(key))
  {
    JoinedRuns(Lowered(CamelSplit(key)), []);
    SplitKeepsLetters(key);
  }

  /** A key whose letters and digits start with a listed word is sensitive, in any case and with any separators. */
  lemma ListedStartIsSensitive(key: Text, t: nat)
    requires t < |TOKENS| && Units(TOKENS[t]) <= Letters(Lowered(key))
    ensures SensitiveKey(key)
  {
    JoinedWords(key);
  }

  predicate PrototypeKey(key: Text) {
    key == Units("__proto__") || key == Units("prototype") || key == Units("constructor")
  }

  /** Which keys the walk passes over. */
  type KeyFilter = Text -> bool

  predicate HasKey(members: Members, key: Text) {
    members.Assign? && (members.key == key || HasKey(members.init, key))
  }

  function MemberCount(members: Members): nat {
    match members
    case NoMembers => 0
    case Assign(init, _, _) => MemberCount(init) + 1
  }

  // --------------------------------------------------------------------------------------------- walk

  /** The state a walk shares: the containers on the current path and what is left of the budgets. */
  datatype State = State(active: set<nat>, nodes: int, remaining: int)

  predicate Spent(st: State) { st.nodes >= MAX_NODES || st.remaining < 16 }

  /** A value and the state it leaves; no value is the OMIT symbol. */
  datatype Step = Step(out: Option<Out>, state: State)

  function TakeString(value: Text, st: State): Step {
    var available := if st.remaining > 4 then st.remaining - 4 else 0;
    var taken := Shrunk(Candidate(value), available);
    Step(Some(TextOut(taken)), st.(remaining := st.remaining - (ByteLength(taken) + 2)))
  }

  function SanitizeValue(g: Graph, hidden: KeyFilter, v: Value, depth: nat, st: State): Step
    requires depth <= MAX_DEPTH
    decreases MAX_DEPTH - depth, 3, 0
  {
    if Spent(st) then Step(None, st)
    else
      var counted := st.(nodes := st.nodes + 1, remaining := st.remaining - 4);
      match v
      case Null => Step(Some(NullOut), counted)
      case Str(text) => TakeString(text, counted)
      case Number(value, digits) => Step(Some(NumberOut(value)), counted.(remaining := counted.remaining - digits))
      case NonFinite => Step(Some(NullOut), counted)
      case Boolean(flag) => Step(Some(BooleanOut(flag)), counted.(remaining := counted.remaining - if flag then 4 else 5))
      case Unsupported => Step(None, counted)
      case Ref(id) => SanitizeReference(g, hidden, id, depth, counted)
  }

  /** An object value, after it was counted. */
  function SanitizeReference(g: Graph, hidden: KeyFilter, id: nat, depth: nat, st: State): Step
    requires depth <= MAX_DEPTH
    decreases MAX_DEPTH - depth, 2, 1
  {
    if id >= |g| then Step(None, st)
    else if depth >= MAX_DEPTH then TakeString(Units("[Truncated]"), st)
    else
      match g[id]
      case DateObject(iso) => TakeString(if iso.Some? then iso.value else Units("[Invalid date]"), st)
      case Binary => TakeString(Units("[Binary omitted]"), st)
      case Array(items) =>
        if id in st.active then TakeString(Units("[Circular]"), st)
        else
          var walked := SanitizeItems(g, hidden, First(items, MAX_COLLECTION_ITEMS), depth, NoElements, st.(active := st.active + {id}));
          Step(Some(ArrayOut(walked.elements)), walked.state.(active := walked.state.active - {id}))
      case Plain(_) =>
        if id in st.active then TakeString(Units("[Circular]"), st) else SanitizeObject(g, hidden, id, depth, st)
  }

  datatype Walked = Walked(elements: Elements, state: State)

  function SanitizeItems(g: Graph, hidden: KeyFilter, items: seq<Value>, depth: nat, result: Elements, st: State): Walked
    requires depth < MAX_DEPTH
    decreases MAX_DEPTH - depth, 1, |items|
  {
    if items == [] then Walked(result, st)
    else
      var item := SanitizeValue(g, hidden, items[0], depth + 1, st);
      var pushed := if item.out.Some? then Push(result, item.out.value) else result;
      if Spent(item.state) then Walked(pushed, item.state)
      else SanitizeItems(g, hidden, items[1..], depth, pushed, item.state)
  }

  function SanitizeObject(g: Graph, hidden: KeyFilter, id: nat, depth: nat, st: State): Step
    requires depth < MAX_DEPTH
    decreases MAX_DEPTH - depth, 2, 0
  {
    if id in st.active then Step(None, st)
    else if id >= |g| || !g[id].Plain? || g[id].properties.None? then Step(Some(ObjectOut(NoMembers)), st)
    else
      var visited := SanitizeProperties(g, hidden, g[id].properties.value, depth, NoMembers, st.(active := st.active + {id}));
      Step(Some(ObjectOut(visited.members)), visited.state.(active := visited.state.active - {id}))
  }

  datatype Visited = Visited(members: Members, state: State)

  function SanitizeProperties(g: Graph, hidden: KeyFilter, properties: seq<Property>, depth: nat, result: Members, st: State): Visited
    requires depth < MAX_DEPTH
    decreases MAX_DEPTH - depth, 1, |properties|
  {
    if properties == [] || MemberCount(result) >= MAX_COLLECTION_ITEMS then Visited(result, st)
    else
      var p, rest := properties[0], properties[1..];
      var safeKey := First(p.key, MAX_KEY_LENGTH);
      if hidden(p.key) then SanitizeProperties(g, hidden, rest, depth, result, st)
      else if safeKey == [] || HasKey(result, safeKey) then SanitizeProperties(g, hidden, rest, depth, result, st)
      else
        var keyCost := ByteLength(safeKey) + 4;
        if st.remaining <= keyCost + 16 then Visited(result, st)
        else
          var charged := st.(remaining := st.remaining - keyCost);
          if p.access.None? then SanitizeProperties(g, hidden, rest, depth, result, charged)
          else
            var child := SanitizeValue(g, hidden, p.access.value, depth + 1, charged);
            var written := if child.out.Some? then Assign(result, safeKey, child.out.value) else result;
            if Spent(child.state) then Visited(written, child.state)
            else SanitizeProperties(g, hidden, rest, depth, written, child.state)
  }

  /** The keys no output shows. */
  function HiddenKeys(): KeyFilter { key => SensitiveKey(key) || PrototypeKey(key) }

  function SanitizeAuditMetadata(g: Graph, root: nat): Out {
    var sanitized := SanitizeObject(g, HiddenKeys(), root, 0, State({}, 0, MAX_TOTAL_BYTES));
    if sanitized.out.None? then ObjectOut(NoMembers) else sanitized.out.value
  }

  // ------------------------------------------------------------------------------------------ measures

  /** The values of an output, itself included. */
  function Size(o: Out): nat {
    match o
    case ArrayOut(elements) => 1 + ElementsSize(elements)
    case ObjectOut(members) => 1 + MembersSize(members)
    case _ => 1
  }

  function ElementsSize(es: Elements): nat {
    match es
    case NoElements => 0
    case Push(init, last) => ElementsSize(init) + Size(last)
  }

  function MembersSize(ms: Members): nat {
    match ms
    case NoMembers => 0
    case Assign(init, _, value) => MembersSize(init) + Size(value)
  }

  /** The UTF-8 bytes of all keys and strings. */
  function Bytes(o: Out): nat {
    match o
    case TextOut(text) => ByteLength(text)
    case ArrayOut(elements) => ElementsBytes(elements)
    case ObjectOut(members) => MembersBytes(members)
    case _ => 0
  }

  function ElementsBytes(es: Elements): nat {
    match es
    case NoElements => 0
    case Push(init, last) => ElementsBytes(init) + Bytes(last)
  }

  function MembersBytes(ms: Members): nat {
    match ms
    case NoMembers => 0
    case Assign(init, key, value) => MembersBytes(init) + ByteLength(key) + Bytes(value)
  }

  /** At most `levels` containers inside one another. */
  predicate Nested(o: Out, levels: int) {
    match o
    case ArrayOut(elements) => levels >= 1 && ElementsNested(elements, levels - 1)
    case ObjectOut(members) => levels >= 1 && MembersNested(members, levels - 1)
    case _ => true
  }

  predicate ElementsNested(es: Elements, levels: int) {
    match es
    case NoElements => true
    case Push(init, last) => ElementsNested(init, levels) && Nested(last, levels)
  }

  predicate MembersNested(ms: Members, levels: int) {
    match ms
    case NoMembers => true
    case Assign(init, _, value) => MembersNested(init, levels) && Nested(value, levels)
  }

  function Positive(x: int): nat { if x > 0 then x else 0 }

  function OptionSize(o: Option<Out>): nat { if o.None? then 0 else Size(o.value) }

  function OptionBytes(o: Option<Out>): nat { if o.None? then 0 else Bytes(o.value) }

  /**
   * What a piece of the walk may have used: the path is as it was, every value was counted within the limit, and the
   * bytes written and the bytes left fit into what was left before.
   */
  predicate Within(before: State, after: State, size: int, bytes: int) {
    && after.active == before.active
    && before.nodes <= after.nodes
    && (before.nodes <= MAX_NODES ==> after.nodes <= MAX_NODES)
    && size <= after.nodes - before.nodes
    && bytes + Positive(after.remaining) <= Positive(before.remaining)
  }

  lemma WithinSequence(a: State, b: State, c: State, size: int, bytes: int, size': int, bytes': int)
    requires Within(a, b, size, bytes) && Within(b, c, size', bytes')
    ensures Within(a, c, size + size', bytes + bytes')
  {
  }

  lemma TakeStringWithin(value: Text, st: State)
    ensures var step := TakeString(value, st);
            && step.out.Some? && step.out.value.TextOut?
            && Within(st, step.state, 0, Bytes(step.out.value))
            && step.out.value.text <= Candidate(value)
  {
    ShrunkFits(Candidate(value), if st.remaining > 4 then st.remaining - 4 else 0);
  }

  /** A value is counted before it is looked at. */
  lemma {:induction false} ValueWithin(g: Graph, hidden: KeyFilter, v: Value, depth: nat, st: State)
    requires depth <= MAX_DEPTH
    ensures var step := SanitizeValue(g, hidden, v, depth, st);
            && Within(st, step.state, OptionSize(step.out), OptionBytes(step.out))
            && (step.out.Some? ==> Nested(step.out.value, MAX_DEPTH - depth))
    decreases MAX_DEPTH - depth, 3, 0
  {
    if !Spent(st) {
      var counted := st.(nodes := st.nodes + 1, remaining := st.remaining - 4);
      match v
      case Str(text) => TakeStringWithin(text, counted);
      case Ref(id) => ReferenceWithin(g, hidden, id, depth, counted);
      case _ =>
    }
  }

  /** The size of an object value is one more than what its walk counted: the value itself was counted before. */
  lemma {:induction false} ReferenceWithin(g: Graph, hidden: KeyFilter, id: nat, depth: nat, st: State)
    requires depth <= MAX_DEPTH
    ensures var step := SanitizeReference(g, hidden, id, depth, st);
            && Within(st, step.state, OptionSize(step.out) - 1, OptionBytes(step.out))
            && (step.out.Some? ==> Nested(step.out.value, MAX_DEPTH - depth))
    decreases MAX_DEPTH - depth, 2, 1
  {
    if id < |g| {
      if depth >= MAX_DEPTH {
        TakeStringWithin(Units("[Truncated]"), st);
      } else {
        match g[id]
        case DateObject(iso) => TakeStringWithin(if iso.Some? then iso.value else Units("[Invalid date]"), st);
        case Binary => TakeStringWithin(Units("[Binary omitted]"), st);
        case Array(items) =>
          if id in st.active {
            TakeStringWithin(Units("[Circular]"), st);
          } else {
            ArrayWithin(g, hidden, id, items, depth, st);
          }
        case Plain(_) =>
          TakeStringWithin(Units("[Circular]"), st);
          ObjectWithin(g, hidden, id, depth, st);
      }
    }
  }

  lemma {:induction false} ArrayWithin(g: Graph, hidden: KeyFilter, id: nat, items: seq<Value>, depth: nat, st: State)
    requires depth < MAX_DEPTH && id !in st.active
    ensures var walked := SanitizeItems(g, hidden, First(items, MAX_COLLECTION_ITEMS), depth, NoElements, st.(active := st.active + {id}));
            && Within(st, walked.state.(active := walked.state.active - {id}), ElementsSize(walked.elements), ElementsBytes(walked.elements))
            && ElementsNested(walked.elements, MAX_DEPTH - depth - 1)
    decreases MAX_DEPTH - depth, 2, 0
  {
    var entered := st.(active := st.active + {id});
    ItemsWithin(g, hidden, First(items, MAX_COLLECTION_ITEMS), depth, NoElements, entered, entered);
    assert st.active + {id} - {id} == st.active;
  }

  lemma {:induction false} ItemsWithin(g: Graph, hidden: KeyFilter, items: seq<Value>, depth: nat, result: Elements, start: State, st: State)
    requires depth < MAX_DEPTH
    requires Within(start, st, ElementsSize(result), ElementsBytes(result)) && ElementsNested(result, MAX_DEPTH - depth - 1)
    ensures var walked := SanitizeItems(g, hidden, items, depth, result, st);
            && Within(start, walked.state, ElementsSize(walked.elements), ElementsBytes(walked.elements))
            && ElementsNested(walked.elements, MAX_DEPTH - depth - 1)
    decreases MAX_DEPTH - depth, 1, |items|
  {
    if items != [] {
      var item := SanitizeValue(g, hidden, items[0], depth + 1, st);
      ValueWithin(g, hidden, items[0], depth + 1, st);
      WithinSequence(start, st, item.state, ElementsSize(result), ElementsBytes(result), OptionSize(item.out), OptionBytes(item.out));
      if !Spent(item.state) {
        ItemsWithin(g, hidden, items[1..], depth, if item.out.Some? then Push(result, item.out.value) else result, start, item.state);
      }
    }
  }

  lemma {:induction false} ObjectWithin(g: Graph, hidden: KeyFilter, id: nat, depth: nat, st: State)
    requires depth < MAX_DEPTH
    ensures var step := SanitizeObject(g, hidden, id, depth, st);
            && Within(st, step.state, OptionSize(step.out) - 1, OptionBytes(step.out))
            && (step.out.Some? ==> Nested(step.out.value, MAX_DEPTH - depth))
    decreases MAX_DEPTH - depth, 2, 0
  {
    if id !in st.active && id < |g| && g[id].Plain? && g[id].properties.Some? {
      var entered := st.(active := st.active + {id});
      PropertiesWithin(g, hidden, g[id].properties.value, depth, NoMembers, entered, entered);
      assert st.active + {id} - {id} == st.active;
    }
  }

  lemma {:induction false} PropertiesWithin(g: Graph, hidden: KeyFilter, properties: seq<Property>, depth: nat, result: Members, start: State, st: State)
    requires depth < MAX_DEPTH
    requires Within(start, st, MembersSize(result), MembersBytes(result)) && MembersNested(result, MAX_DEPTH - depth - 1)
    ensures var visited := SanitizeProperties(g, hidden, properties, depth, result, st);
            && Within(start, visited.state, MembersSize(visited.members), MembersBytes(visited.members))
            && MembersNested(visited.members, MAX_DEPTH - depth - 1)
    decreases MAX_DEPTH - depth, 1, |properties|, 0
  {
    if properties != [] && MemberCount(result) < MAX_COLLECTION_ITEMS {
      var p, rest := properties[0], properties[1..];
      var safeKey := First(p.key, MAX_KEY_LENGTH);
      if hidden(p.key) || safeKey == [] || HasKey(result, safeKey) {
        PropertiesWithin(g, hidden, rest, depth, result, start, st);
      } else if st.remaining > ByteLength(safeKey) + 4 + 16 {
        var charged := st.(remaining := st.remaining - (ByteLength(safeKey) + 4));
        assert Within(st, charged, 0, ByteLength(safeKey));
        WithinSequence(start, st, charged, MembersSize(result), MembersBytes(result), 0, ByteLength(safeKey));
        if p.access.None? {
          PropertiesWithin(g, hidden, rest, depth, result, start, charged);
        } else {
          ChildWithin(g, hidden, p.access.value, depth, result, safeKey, start, charged, rest);
        }
      }
    }
  }

  lemma {:induction false} ChildWithin(g: Graph, hidden: KeyFilter, v: Value, depth: nat, result: Members, key: Text, start: State, charged: State, rest: seq<Property>)
    requires depth < MAX_DEPTH
    requires Within(start, charged, MembersSize(result), MembersBytes(result) + ByteLength(key)) && MembersNested(result, MAX_DEPTH - depth - 1)
    ensures var child := SanitizeValue(g, hidden, v, depth + 1, charged);
            var written := if child.out.Some? then Assign(result, key, child.out.value) else result;
            && Within(start, child.state, MembersSize(written), MembersBytes(written))
            && MembersNested(written, MAX_DEPTH - depth - 1)
            && (!Spent(child.state) ==>
                  var visited := SanitizeProperties(g, hidden, rest, depth, written, child.state);
                  && Within(start, visited.state, MembersSize(visited.members), MembersBytes(visited.members))
                  && MembersNested(visited.members, MAX_DEPTH - depth - 1))
    decreases MAX_DEPTH - depth, 1, |rest|, 1
  {
    var child := SanitizeValue(g, hidden, v, depth + 1, charged);
    ValueWithin(g, hidden, v, depth + 1, charged);
    WithinSequence(start, charged, child.state, MembersSize(result), MembersBytes(result) + ByteLength(key), OptionSize(child.out), OptionBytes(child.out));
    if !Spent(child.state) {
      PropertiesWithin(g, hidden, rest, depth, if child.out.Some? then Assign(result, key, child.out.value) else result, start, child.state);
    }
  }

  /**
   * For every object graph, cyclic or not: at most 6 levels of containers, at most 500 values below the root, and at
   * most 16000 bytes of keys and strings.
   */
  lemma OutputBounded(g: Graph, root: nat)
    ensures var o := SanitizeAuditMetadata(g, root);
            Nested(o, 6) && Size(o) <= 501 && Bytes(o) <= 16000
  {
    ObjectWithin(g, HiddenKeys(), root, 0, State({}, 0, MAX_TOTAL_BYTES));
  }

  // --------------------------------------------------------------------------------------- provenance

  function ElementCount(es: Elements): nat {
    match es
    case NoElements => 0
    case Push(init, _) => ElementCount(init) + 1
  }

  /** A text that stands for an object: a date, or one of the markers, cut to fit. */
  predicate StandsFor(o: Object, text: Text) {
    || text <= Candidate(Units("[Truncated]"))
    || text <= Candidate(Units("[Circular]"))
    || (o.Binary? && text <= Candidate(Units("[Binary omitted]")))
    || (o.DateObject? && text <= Candidate(if o.iso.Some? then o.iso.value else Units("[Invalid date]")))
  }

  /** The output shows the value and nothing else: every part of it comes from a part of the value, in order. */
  ghost predicate Shows(g: Graph, hidden: KeyFilter, v: Value, o: Out)
    decreases o, 0
  {
    match o
    case NullOut => v == Null || v == NonFinite
    case TextOut(text) => (v.Str? && text <= Candidate(v.text)) || (v.Ref? && v.id < |g| && StandsFor(g[v.id], text))
    case NumberOut(value) => v.Number? && v.value == value
    case BooleanOut(flag) => v == Boolean(flag)
    case ArrayOut(elements) =>
      && v.Ref? && v.id < |g| && g[v.id].Array?
      && ElementsShow(g, hidden, First(g[v.id].items, MAX_COLLECTION_ITEMS), elements)
    case ObjectOut(members) => v.Ref? && ShowsObject(g, hidden, v.id, members)
  }

  ghost predicate ShowsObject(g: Graph, hidden: KeyFilter, id: nat, members: Members)
    decreases members, 1
  {
    && MemberCount(members) <= MAX_COLLECTION_ITEMS
    && (members != NoMembers ==>
          id < |g| && g[id].Plain? && g[id].properties.Some? && MembersShow(g, hidden, g[id].properties.value, members))
  }

  /** The elements are values of the items, in their order. */
  ghost predicate ElementsShow(g: Graph, hidden: KeyFilter, items: seq<Value>, es: Elements)
    decreases es, 0
  {
    match es
    case NoElements => true
    case Push(init, last) =>
      exists k :: 0 <= k < |items| && Shows(g, hidden, items[k], last) && ElementsShow(g, hidden, items[..k], init)
  }

  /** The members are properties in their order: each key the prefix of a key that may be shown, and no key twice. */
  ghost predicate MembersShow(g: Graph, hidden: KeyFilter, properties: seq<Property>, ms: Members)
    decreases ms, 0
  {
    match ms
    case NoMembers => true
    case Assign(init, key, value) =>
      && !HasKey(init, key)
      && exists k :: 0 <= k < |properties| && MemberShows(g, hidden, properties[k], key, value) && MembersShow(g, hidden, properties[..k], init)
  }

  ghost predicate MemberShows(g: Graph, hidden: KeyFilter, p: Property, key: Text, value: Out)
    decreases value, 1
  {
    && !hidden(p.key)
    && key == First(p.key, MAX_KEY_LENGTH) && key != []
    && p.access.Some? && Shows(g, hidden, p.access.value, value)
  }

  lemma {:induction false} ValueShows(g: Graph, hidden: KeyFilter, v: Value, depth: nat, st: State)
    requires depth <= MAX_DEPTH
    ensures var step := SanitizeValue(g, hidden, v, depth, st); step.out.Some? ==> Shows(g, hidden, v, step.out.value)
    decreases MAX_DEPTH - depth, 3, 0
  {
    if !Spent(st) {
      var counted := st.(nodes := st.nodes + 1, remaining := st.remaining - 4);
      match v
      case Str(text) => TakeStringWithin(text, counted);
      case Ref(id) => ReferenceShows(g, hidden, id, depth, counted);
      case _ =>
    }
  }

  lemma {:induction false} ReferenceShows(g: Graph, hidden: KeyFilter, id: nat, depth: nat, st: State)
    requires depth <= MAX_DEPTH
    ensures var step := SanitizeReference(g, hidden, id, depth, st); step.out.Some? ==> Shows(g, hidden, Ref(id), step.out.value)
    decreases MAX_DEPTH - depth, 2, 1
  {
    if id < |g| {
      if depth >= MAX_DEPTH {
        TakeStringWithin(Units("[Truncated]"), st);
      } else {
        match g[id]
        case DateObject(iso) => TakeStringWithin(if iso.Some? then iso.value else Units("[Invalid date]"), st);
        case Binary => TakeStringWithin(Units("[Binary omitted]"), st);
        case Array(items) =>
          if id in st.active {
            TakeStringWithin(Units("[Circular]"), st);
          } else {
            ItemsShow(g, hidden, First(items, MAX_COLLECTION_ITEMS), 0, depth, NoElements, st.(active := st.active + {id}));
          }
        case Plain(_) =>
          if id in st.active {
            TakeStringWithin(Units("[Circular]"), st);
          } else {
            ObjectShows(g, hidden, id, depth, st);
          }
      }
    }
  }

  lemma {:induction false} ElementsWiden(g: Graph, hidden: KeyFilter, items: seq<Value>, fewer: nat, es: Elements)
    requires fewer <= |items| && ElementsShow(g, hidden, items[..fewer], es)
    ensures ElementsShow(g, hidden, items, es)
  {
    if es.Push? {
      var k :| 0 <= k < fewer && Shows(g, hidden, items[..fewer][k], es.last) && ElementsShow(g, hidden, items[..fewer][..k], es.init);
      assert items[..fewer][..k] == items[..k];
    }
  }

  /** The next item, shown or omitted. */
  lemma PushShows(g: Graph, hidden: KeyFilter, all: seq<Value>, i: nat, result: Elements, out: Option<Out>)
    requires i < |all| && ElementsShow(g, hidden, all[..i], result)
    requires out.Some? ==> Shows(g, hidden, all[i], out.value)
    ensures ElementsShow(g, hidden, all[..i + 1], if out.Some? then Push(result, out.value) else result)
  {
    var upTo := all[..i + 1];
    assert upTo[..i] == all[..i] && upTo[i] == all[i];
    if out.None? {
      ElementsWiden(g, hidden, upTo, i, result);
    }
  }

  lemma {:induction false} ItemsShow(g: Graph, hidden: KeyFilter, all: seq<Value>, i: nat, depth: nat, result: Elements, st: State)
    requires depth < MAX_DEPTH && i <= |all| && ElementsShow(g, hidden, all[..i], result)
    ensures ElementsShow(g, hidden, all, SanitizeItems(g, hidden, all[i..], depth, result, st).elements)
    decreases MAX_DEPTH - depth, 1, |all| - i
  {
    if i == |all| {
      assert all[..i] == all;
    } else {
      var item := SanitizeValue(g, hidden, all[i], depth + 1, st);
      var pushed := if item.out.Some? then Push(result, item.out.value) else result;
      assert all[i..][0] == all[i] && all[i..][1..] == all[i + 1..];
      ValueShows(g, hidden, all[i], depth + 1, st);
      PushShows(g, hidden, all, i, result, item.out);
      if Spent(item.state) {
        ElementsWiden(g, hidden, all, i + 1, pushed);
      } else {
        ItemsShow(g, hidden, all, i + 1, depth, pushed, item.state);
      }
    }
  }

  lemma {:induction false} ObjectShows(g: Graph, hidden: KeyFilter, id: nat, depth: nat, st: State)
    requires depth < MAX_DEPTH
    ensures var step := SanitizeObject(g, hidden, id, depth, st);
            step.out.Some? ==> step.out.value.ObjectOut? && ShowsObject(g, hidden, id, step.out.value.members)
    decreases MAX_DEPTH - depth, 2, 0
  {
    if id !in st.active && id < |g| && g[id].Plain? && g[id].properties.Some? {
      PropertiesShow(g, hidden, g[id].properties.value, 0, depth, NoMembers, st.(active := st.active + {id}));
    }
  }

  lemma {:induction false} MembersWiden(g: Graph, hidden: KeyFilter, properties: seq<Property>, fewer: nat, ms: Members)
    requires fewer <= |properties| && MembersShow(g, hidden, properties[..fewer], ms)
    ensures MembersShow(g, hidden, properties, ms)
  {
    if ms.Assign? {
      var k :| 0 <= k < fewer && MemberShows(g, hidden, properties[..fewer][k], ms.key, ms.value) && MembersShow(g, hidden, properties[..fewer][..k], ms.init);
      assert properties[..fewer][..k] == properties[..k];
    }
  }

  lemma {:induction false} PropertiesShow(g: Graph, hidden: KeyFilter, all: seq<Property>, i: nat, depth: nat, result: Members, st: State)
    requires depth < MAX_DEPTH && i <= |all|
    requires MembersShow(g, hidden, all[..i], result) && MemberCount(result) <= MAX_COLLECTION_ITEMS
    ensures var members := SanitizeProperties(g, hidden, all[i..], depth, result, st).members;
            MembersShow(g, hidden, all, members) && MemberCount(members) <= MAX_COLLECTION_ITEMS
    decreases MAX_DEPTH - depth, 1, |all| - i, 0
  {
    MembersWiden(g, hidden, all, i, result);
    if i < |all| && MemberCount(result) < MAX_COLLECTION_ITEMS {
      var p := all[i];
      var safeKey := First(p.key, MAX_KEY_LENGTH);
      assert all[i..][0] == p && all[i..][1..] == all[i + 1..];
      assert all[..i + 1][..i] == all[..i];
      MembersWiden(g, hidden, all[..i + 1], i, result);
      if hidden(p.key) || safeKey == [] || HasKey(result, safeKey) {
        PropertiesShow(g, hidden, all, i + 1, depth, result, st);
      } else if st.remaining > ByteLength(safeKey) + 4 + 16 {
        var charged := st.(remaining := st.remaining - (ByteLength(safeKey) + 4));
        if p.access.None? {
          PropertiesShow(g, hidden, all, i + 1, depth, result, charged);
        } else {
          ChildShows(g, hidden, all, i, depth, result, charged);
        }
      }
    }
  }

  /** The property at i, allowed and new, is read and assigned, and the walk goes on behind it. */
  lemma {:induction false} ChildShows(g: Graph, hidden: KeyFilter, all: seq<Property>, i: nat, depth: nat, result: Members, charged: State)
    requires depth < MAX_DEPTH && i < |all| && all[i].access.Some?
    requires !hidden(all[i].key)
    requires First(all[i].key, MAX_KEY_LENGTH) != [] && !HasKey(result, First(all[i].key, MAX_KEY_LENGTH))
    requires MembersShow(g, hidden, all[..i], result) && MembersShow(g, hidden, all[..i + 1], result) && MemberCount(result) < MAX_COLLECTION_ITEMS
    ensures var child := SanitizeValue(g, hidden, all[i].access.value, depth + 1, charged);
            var written := if child.out.Some? then Assign(result, First(all[i].key, MAX_KEY_LENGTH), child.out.value) else result;
            && MembersShow(g, hidden, all, written) && MemberCount(written) <= MAX_COLLECTION_ITEMS
            && (!Spent(child.state) ==>
                  var members := SanitizeProperties(g, hidden, all[i + 1..], depth, written, child.state).members;
                  MembersShow(g, hidden, all, members) && MemberCount(members) <= MAX_COLLECTION_ITEMS)
    decreases MAX_DEPTH - depth, 1, |all| - i - 1, 1
  {
    var child := SanitizeValue(g, hidden, all[i].access.value, depth + 1, charged);
    var key := First(all[i].key, MAX_KEY_LENGTH);
    ValueShows(g, hidden, all[i].access.value, depth + 1, charged);
    var written := if child.out.Some? then Assign(result, key, child.out.value) else result;
    if child.out.Some? {
      assert all[..i + 1][..i] == all[..i];
      assert MemberShows(g, hidden, all[..i + 1][i], key, child.out.value);
    }
    MembersWiden(g, hidden, all, i + 1, written);
    if !Spent(child.state) {
      PropertiesShow(g, hidden, all, i + 1, depth, written, child.state);
    }
  }

  /**
   * For every object graph the output shows the root and nothing else: every value comes from a value it stands for,
   * in order, under a key that is the prefix of a property's key that is neither sensitive nor a prototype key, each
   * key once and at most fifty of them.
   */
  lemma OutputShowsRoot(g: Graph, root: nat)
    ensures SanitizeAuditMetadata(g, root).ObjectOut? && ShowsObject(g, HiddenKeys(), root, SanitizeAuditMetadata(g, root).members)
  {
    ObjectShows(g, HiddenKeys(), root, 0, State({}, 0, MAX_TOTAL_BYTES));
  }

  /** The elements of an array that shows fifty items are at most fifty. */
  lemma {:induction false} ElementsBounded(g: Graph, hidden: KeyFilter, items: seq<Value>, es: Elements)
    requires ElementsShow(g, hidden, items, es)
    ensures ElementCount(es) <= |items|
  {
    if es.Push? {
      var k :| 0 <= k < |items| && Shows(g, hidden, items[k], es.last) && ElementsShow(g, hidden, items[..k], es.init);
      ElementsBounded(g, hidden, items[..k], es.init);
    }
  }

  lemma ArrayAtMostFifty(g: Graph, hidden: KeyFilter, v: Value, es: Elements)
    requires Shows(g, hidden, v, ArrayOut(es))
    ensures ElementCount(es) <= 50
  {
    ElementsBounded(g, hidden, First(g[v.id].items, MAX_COLLECTION_ITEMS), es);
  }
}
