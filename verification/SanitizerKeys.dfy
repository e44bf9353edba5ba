/** Which keys the sanitizer hides, on the key itself: a listed word between borders or at the start, and nothing else. */
module SanitizerKeys {
  import opened Common
  import opened Sanitizer

  // ------------------------------------------------------------------------------------------- words

  /** A letter or digit of the ASCII range, in either case. */
  predicate Ascii(u: Unit) { 0x30 <= u <= 0x39 || 0x41 <= u <= 0x5A || 0x61 <= u <= 0x7A }

  /** A camel-case step: a lower-case letter or digit, then an upper-case letter. */
  predicate CamelStep(a: Unit, b: Unit) {
    (0x30 <= a <= 0x39 || 0x61 <= a <= 0x7A) && 0x41 <= b <= 0x5A
  }

  /** The unit reads as this lower-case letter or digit: in either case, and the Kelvin sign as k. */
  predicate Same(u: Unit, c: Unit) {
    u == c || (0x61 <= c <= 0x7A && u + 32 == c) || (c == 0x6B && u == 0x212A)
  }

  /** A word can start here: at the start of the key, behind a unit that is no letter or digit, or at a camel-case step. */
  predicate OpensAt(key: Text, i: nat)
    requires i < |key|
  {
    i == 0 || !(Ascii(key[i - 1]) || key[i - 1] == 0x212A) || CamelStep(key[i - 1], key[i])
  }

  /** A word can end here; the dotted capital I reads as an i with a mark behind it, so that it goes on with the word. */
  predicate ClosesAt(key: Text, j: nat)
    requires 0 < j <= |key|
  {
    j == |key| || !(Ascii(key[j]) || key[j] == 0x212A || key[j] == 0x130) || CamelStep(key[j - 1], key[j])
  }

  /** The word stands at this place of the key, in any case, between two borders and with no camel-case step inside. */
  predicate WordAt(key: Text, w: Text, i: nat) {
    && 0 < |w| && i + |w| <= |key|
    && OpensAt(key, i) && ClosesAt(key, i + |w|)
    && (forall k | 0 <= k < |w| :: Same(key[i + k], w[k]))
    && (forall k | i < k < i + |w| :: !CamelStep(key[k - 1], key[k]))
  }

  ghost predicate HasWord(key: Text, w: Text) {
    exists i: nat :: WordAt(key, w, i)
  }

  /** Lower-case letters only, and not ending in i: what the listed words have in common. */
  predicate PlainWord(w: Text) {
    && w != [] && (forall k | 0 <= k < |w| :: 0x61 <= w[k] <= 0x7A) && w[|w| - 1] != 0x69
  }

  // ------------------------------------------------------------------- words of a split text, by recursion

  /** The word is the first one of the text. */
  predicate Leads(t: Text, w: Text) {
    w <= t && (|t| == |w| || !Alphanumeric(t[|w|]))
  }

  /** The word is a run of the text; `inside` tells that a run goes on at its start. */
  predicate RunIn(t: Text, inside: bool, w: Text) {
    t != [] && ((!inside && Leads(t, w)) || RunIn(t[1..], Alphanumeric(t[0]), w))
  }

  lemma {:induction false} RunsAre(t: Text, run: Text, w: Text)
    requires PlainWord(w)
    ensures w in Runs(t, run) <==> (run != [] && run <= w && Leads(t, w[|run|..])) || RunIn(t, run != [], w)
  {
    if t == [] {
      assert run <= w && Leads(t, w[|run|..]) ==> w == run;
    } else if Alphanumeric(t[0]) {
      RunsAre(t[1..], run + [t[0]], w);
      RunGoesOn(t, run, w);
    } else {
      RunsAre(t[1..], [], w);
      RunEnds(t, run, w);
    }
  }

  /** The first unit of the text belongs to the run. */
  lemma RunGoesOn(t: Text, run: Text, w: Text)
    requires t != [] && Alphanumeric(t[0])
    ensures run + [t[0]] <= w && Leads(t[1..], w[|run + [t[0]]|..]) <==> run <= w && Leads(t, w[|run|..])
    ensures run == [] ==> w[|run|..] == w
  {
    if run <= w && Leads(t, w[|run|..]) {
      assert w[|run|..] != [];
      assert w[|run|..][0] == t[0];
      assert w[|run| + 1..] == w[|run|..][1..];
    }
    if run + [t[0]] <= w && Leads(t[1..], w[|run| + 1..]) {
      assert w[|run|..] == [t[0]] + w[|run| + 1..];
      assert t == [t[0]] + t[1..];
    }
  }

  /** The first unit of the text ends the run. */
  lemma RunEnds(t: Text, run: Text, w: Text)
    requires t != [] && !Alphanumeric(t[0]) && PlainWord(w)
    ensures run <= w && Leads(t, w[|run|..]) <==> w == run
    ensures !Leads(t, w)
  {
    if run <= w && |run| < |w| {
      assert w[|run|..][0] == w[|run|];
    }
  }

  // ----------------------------------------------------------------------------- the same on the key

  /** The text whose runs are the words. */
  function Split(key: Text): Text { Lowered(CamelSplit(key)) }

  function Gap(key: Text): Text {
    if |key| > 1 && CamelStep(key[0], key[1]) then [0x20] else []
  }

  lemma LoweredHead(u: Unit, s: Text)
    ensures Lowered([u] + s) == LoweredUnit(u) + Lowered(s)
  {
    assert ([u] + s)[1..] == s;
  }

  lemma SplitHead(key: Text)
    requires key != []
    ensures Split(key) == LoweredUnit(key[0]) + (Gap(key) + Split(key[1..]))
  {
    if |key| == 1 {
      assert key == [key[0]] + [];
      LoweredHead(key[0], []);
    } else if CamelStep(key[0], key[1]) {
      assert CamelSplit(key) == [key[0]] + ([0x20] + CamelSplit(key[1..]));
      LoweredHead(key[0], [0x20] + CamelSplit(key[1..]));
      LoweredHead(0x20, CamelSplit(key[1..]));
    } else {
      LoweredHead(key[0], CamelSplit(key[1..]));
    }
  }

  /** The word is the first one of the key. */
  predicate Spells(key: Text, w: Text) {
    && w != [] && key != [] && Same(key[0], w[0])
    && if |w| == 1 then ClosesAt(key, 1) else |key| > 1 && !CamelStep(key[0], key[1]) && Spells(key[1..], w[1..])
  }

  /** The word starting with this unit goes on behind it. */
  predicate GoesOn(key: Text)
    requires key != []
  {
    (Ascii(key[0]) || key[0] == 0x212A) && !(|key| > 1 && CamelStep(key[0], key[1]))
  }

  predicate WordIn(key: Text, inside: bool, w: Text) {
    key != [] && ((!inside && Spells(key, w)) || WordIn(key[1..], GoesOn(key), w))
  }

  /** What the first unit of a key looks like in the split text. */
  lemma FirstUnit(key: Text)
    ensures key == [] <==> Split(key) == []
    ensures key != [] ==> (Alphanumeric(Split(key)[0]) <==> Ascii(key[0]) || key[0] == 0x212A || key[0] == 0x130)
  {
    if key != [] {
      SplitHead(key);
    }
  }

  lemma LeadsPrepend(c: Unit, x: Text, w: Text)
    requires w != []
    ensures Leads([c] + x, w) <==> c == w[0] && Leads(x, w[1..])
  {
    assert w == [w[0]] + w[1..];
    if c == w[0] && w[1..] <= x {
      assert w <= [c] + x;
    }
    if w <= [c] + x {
      assert w[1..] <= x;
    }
  }

  lemma PlainTail(w: Text)
    requires PlainWord(w) && |w| > 1
    ensures PlainWord(w[1..])
  {
  }

  lemma {:induction false} LeadsIsSpells(key: Text, w: Text)
    requires PlainWord(w)
    ensures Leads(Split(key), w) <==> Spells(key, w)
    decreases |w|
  {
    if key != [] {
      var x := Gap(key) + Split(key[1..]);
      SplitHead(key);
      if key[0] == 0x130 {
        assert Split(key) == [0x69] + ([0x307] + x);
        LeadsPrepend(0x69, [0x307] + x, w);
        if |w| > 1 {
          LeadsPrepend(0x307, x, w[1..]);
        }
      } else {
        var c := LoweredUnit(key[0])[0];
        LeadsPrepend(c, x, w);
        assert c == w[0] <==> Same(key[0], w[0]);
        LeadsBehind(key, w[1..]);
        if |w| > 1 {
          PlainTail(w);
          LeadsIsSpells(key[1..], w[1..]);
        }
      }
    }
  }

  /** The rest of the word behind the first unit of a key. */
  lemma LeadsBehind(key: Text, w: Text)
    requires key != [] && (w == [] || PlainWord(w))
    ensures var x := Gap(key) + Split(key[1..]);
            if w == [] then Leads(x, w) <==> ClosesAt(key, 1)
            else Leads(x, w) <==> |key| > 1 && !CamelStep(key[0], key[1]) && Leads(Split(key[1..]), w)
  {
    FirstUnit(key[1..]);
    if Gap(key) == [] {
      assert Gap(key) + Split(key[1..]) == Split(key[1..]);
    } else {
      assert (Gap(key) + Split(key[1..]))[0] == 0x20;
    }
  }

  lemma RunInPrepend(c: Unit, x: Text, inside: bool, w: Text)
    ensures RunIn([c] + x, inside, w) <==> (!inside && Leads([c] + x, w)) || RunIn(x, Alphanumeric(c), w)
  {
    assert ([c] + x)[1..] == x;
  }

  lemma RunBehind(key: Text, c: Unit, w: Text)
    requires key != [] && PlainWord(w)
    ensures RunIn(Gap(key) + Split(key[1..]), Alphanumeric(c), w)
       <==> RunIn(Split(key[1..]), Alphanumeric(c) && !(|key| > 1 && CamelStep(key[0], key[1])), w)
  {
    if Gap(key) == [] {
      assert Gap(key) + Split(key[1..]) == Split(key[1..]);
    } else {
      RunInPrepend(0x20, Split(key[1..]), Alphanumeric(c), w);
      LeadsPrepend(0x20, Split(key[1..]), w);
    }
  }

  lemma {:induction false} RunInIsWordIn(key: Text, inside: bool, w: Text)
    requires PlainWord(w)
    ensures RunIn(Split(key), inside, w) <==> WordIn(key, inside, w)
  {
    if key != [] {
      var x := Gap(key) + Split(key[1..]);
      SplitHead(key);
      LeadsIsSpells(key, w);
      RunInIsWordIn(key[1..], GoesOn(key), w);
      if key[0] == 0x130 {
        assert Split(key) == [0x69] + ([0x307] + x);
        RunInPrepend(0x69, [0x307] + x, inside, w);
        RunInPrepend(0x307, x, true, w);
        RunBehind(key, 0x307, w);
      } else {
        var c := LoweredUnit(key[0])[0];
        RunInPrepend(c, x, inside, w);
        RunBehind(key, c, w);
      }
    }
  }

  // --------------------------------------------------------------------------------- places in a key

  /** The word stands at this place, whatever is before it. */
  predicate WrittenAt(key: Text, w: Text, i: nat) {
    && 0 < |w| && i + |w| <= |key| && ClosesAt(key, i + |w|)
    && (forall k | 0 <= k < |w| :: Same(key[i + k], w[k]))
    && (forall k | i < k < i + |w| :: !CamelStep(key[k - 1], key[k]))
  }

  lemma {:induction false} SpellsIsWritten(key: Text, w: Text, i: nat)
    requires i <= |key|
    ensures Spells(key[i..], w) <==> WrittenAt(key, w, i)
    decreases |w|
  {
    if w != [] && i < |key| {
      assert key[i..][0] == key[i] && key[i..][1..] == key[i + 1..];
      if |w| > 1 {
        SpellsIsWritten(key, w[1..], i + 1);
        WrittenTail(key, w, i);
      }
    }
  }

  lemma WrittenTail(key: Text, w: Text, i: nat)
    requires |w| > 1 && i < |key|
    ensures WrittenAt(key, w, i) <==>
              i + 1 < |key| && Same(key[i], w[0]) && !CamelStep(key[i], key[i + 1]) && WrittenAt(key, w[1..], i + 1)
  {
    var tail := w[1..];
    if WrittenAt(key, w, i) {
      forall k | 0 <= k < |tail|
        ensures Same(key[i + 1 + k], tail[k])
      {
        assert tail[k] == w[k + 1];
      }
      assert !CamelStep(key[i + 1 - 1], key[i + 1]);
    }
    if i + 1 < |key| && Same(key[i], w[0]) && WrittenAt(key, tail, i + 1) {
      forall k | 0 <= k < |w|
        ensures Same(key[i + k], w[k])
      {
        if k > 0 {
          assert w[k] == tail[k - 1];
        }
      }
    }
  }

  lemma {:induction false} WordInIsPlaced(key: Text, w: Text, n: nat)
    requires n <= |key| && w != []
    ensures n < |key| ==> (WordIn(key[n..], !OpensAt(key, n), w) <==> exists i: nat :: n <= i && WordAt(key, w, i))
    decreases |key| - n
  {
    if n < |key| {
      assert key[n..][0] == key[n] && key[n..][1..] == key[n + 1..];
      SpellsIsWritten(key, w, n);
      WordInIsPlaced(key, w, n + 1);
      if n + 1 < |key| {
        assert GoesOn(key[n..]) == !OpensAt(key, n + 1);
      }
      assert OpensAt(key, n) && WrittenAt(key, w, n) <==> WordAt(key, w, n);
      if i: nat :| n <= i && WordAt(key, w, i) {
        assert i == n || n + 1 <= i;
      }
    }
  }

  /** A plain word is among the words of a key exactly when it stands between two borders of it. */
  lemma WordsArePlaced(key: Text, w: Text)
    requires PlainWord(w)
    ensures w in KeyTokens(key) <==> HasWord(key, w)
  {
    RunsAre(Split(key), [], w);
    RunInIsWordIn(key, false, w);
    if key != [] {
      WordInIsPlaced(key, w, 0);
      assert key[0..] == key;
    }
  }

  // ------------------------------------------------------------------------------------ start of a key

  /** The letters and digits of the key start with the word, in any case and whatever stands between them. */
  predicate BeginsWith(key: Text, w: Text) {
    w == []
    || (key != []
        && if Ascii(key[0]) || key[0] == 0x212A || key[0] == 0x130
           then (Same(key[0], w[0]) || (w[0] == 0x69 && key[0] == 0x130)) && BeginsWith(key[1..], w[1..])
           else BeginsWith(key[1..], w))
  }

  lemma PrefixOfPrepend(c: Unit, x: Text, w: Text)
    requires w != []
    ensures w <= [c] + x <==> w[0] == c && w[1..] <= x
  {
    assert w == [w[0]] + w[1..];
    if w <= [c] + x {
      assert w[1..] <= ([c] + x)[1..];
    }
  }

  lemma {:induction false} StartsAreBeginnings(key: Text, w: Text)
    requires forall k :: 0 <= k < |w| ==> 0x61 <= w[k] <= 0x7A
    ensures w <= Letters(Lowered(key)) <==> BeginsWith(key, w)
  {
    if key != [] && w != [] {
      var u, rest := key[0], Letters(Lowered(key[1..]));
      assert key == [u] + key[1..];
      LoweredPrepend(u, key[1..]);
      LettersOfUnit(u);
      if Ascii(u) || u == 0x212A || u == 0x130 {
        StartsAreBeginnings(key[1..], w[1..]);
        PrefixOfPrepend(Letters(LoweredUnit(u))[0], rest, w);
      } else {
        StartsAreBeginnings(key[1..], w);
        assert [] + rest == rest;
      }
    }
  }

  lemma LettersOfUnit(u: Unit)
    ensures Letters(LoweredUnit(u))
         == if 0x41 <= u <= 0x5A then [u + 32] else if u == 0x212A then [0x6B] else if u == 0x130 then [0x69]
            else if Ascii(u) then [u] else []
  {
    if u == 0x130 {
      var mark: Text := [0x307];
      assert mark == [0x307] + [];
      LettersPrepend(0x307, []);
      assert LoweredUnit(u) == [0x69] + mark;
      LettersPrepend(0x69, mark);
    } else {
      assert LoweredUnit(u)[1..] == [];
    }
  }

  // -------------------------------------------------------------------------------------- hidden keys

  /** The word is one of the key, or the key starts with it. */
  ghost predicate Marked(key: Text, w: string) {
    HasWord(key, Units(w)) || BeginsWith(key, Units(w))
  }

  ghost predicate Listed(key: Text) {
    || Marked(key, "password") || Marked(key, "token") || Marked(key, "jwt") || Marked(key, "secret")
    || Marked(key, "authorization") || Marked(key, "cookie") || Marked(key, "hash") || Marked(key, "file")
    || Marked(key, "buffer") || Marked(key, "content") || Marked(key, "request") || Marked(key, "headers")
  }

  lemma MarkedIs(key: Text, w: string)
    requires PlainWord(Units(w))
    ensures Marked(key, w) <==> Units(w) in KeyTokens(key) || Units(w) <= Joined(KeyTokens(key))
  {
    WordsArePlaced(key, Units(w));
    StartsAreBeginnings(key, Units(w));
    JoinedWords(key);
  }

  lemma TokensArePlain(t: nat)
    requires t < |TOKENS|
    ensures PlainWord(Units(TOKENS[t]))
  {
  }

  lemma SensitiveIsMarked(key: Text)
    ensures SensitiveKey(key) <==> exists t :: 0 <= t < |TOKENS| && Marked(key, TOKENS[t])
  {
    forall t | 0 <= t < |TOKENS|
      ensures Marked(key, TOKENS[t]) <==> Units(TOKENS[t]) in KeyTokens(key) || Units(TOKENS[t]) <= Joined(KeyTokens(key))
    {
      TokensArePlain(t);
      MarkedIs(key, TOKENS[t]);
    }
  }

  lemma MarkedIsListed(key: Text)
    ensures (exists t :: 0 <= t < |TOKENS| && Marked(key, TOKENS[t])) <==> Listed(key)
  {
    if Listed(key) {
      assert TOKENS[0] == "password" && TOKENS[1] == "token" && TOKENS[2] == "jwt" && TOKENS[3] == "secret";
      assert TOKENS[4] == "authorization" && TOKENS[5] == "cookie" && TOKENS[6] == "hash" && TOKENS[7] == "file";
      assert TOKENS[8] == "buffer" && TOKENS[9] == "content" && TOKENS[10] == "request" && TOKENS[11] == "headers";
    }
  }

  /** A key is hidden exactly when one of the twelve words is a word of it or its start, or it names a prototype. */
  lemma HiddenExactly(key: Text)
    ensures HiddenKeys()(key) <==>
              Listed(key) || key == Units("__proto__") || key == Units("prototype") || key == Units("constructor")
  {
    SensitiveIsMarked(key);
    MarkedIsListed(key);
  }

  // -------------------------------------------------------------------------------------- output keys

  /** Neither listed nor the name of a prototype. */
  ghost predicate Visible(key: Text) {
    !Listed(key) && key != Units("__proto__") && key != Units("prototype") && key != Units("constructor")
  }

  /** A key of the output is a visible one, or the first 120 units of one. */
  ghost predicate ShownKey(key: Text) {
    1 <= |key| <= 120 && if |key| < 120 then Visible(key) else exists rest: Text :: Visible(key + rest)
  }

  /** Every key of the output, at every depth. */
  ghost predicate KeysShown(o: Out) {
    match o
    case ArrayOut(elements) => ElementKeysShown(elements)
    case ObjectOut(members) => MemberKeysShown(members)
    case _ => true
  }

  ghost predicate ElementKeysShown(es: Elements) {
    match es
    case NoElements => true
    case Push(init, last) => ElementKeysShown(init) && KeysShown(last)
  }

  ghost predicate MemberKeysShown(ms: Members) {
    match ms
    case NoMembers => true
    case Assign(init, key, value) => MemberKeysShown(init) && ShownKey(key) && KeysShown(value)
  }

  lemma NotHiddenIsVisible(key: Text)
    ensures !HiddenKeys()(key) <==> Visible(key)
  {
    HiddenExactly(key);
  }

  lemma CutIsShown(source: Text, key: Text)
    requires Visible(source) && key == First(source, 120) && key != []
    ensures ShownKey(key)
  {
    if |source| >= 120 {
      var rest := source[120..];
      assert source == key + rest;
    }
  }

  lemma {:induction false} ShownValue(g: Graph, v: Value, o: Out)
    requires Shows(g, HiddenKeys(), v, o)
    ensures KeysShown(o)
    decreases o, 0
  {
    match o
    case ArrayOut(elements) => ShownElements(g, First(g[v.id].items, MAX_COLLECTION_ITEMS), elements);
    case ObjectOut(members) =>
      if members != NoMembers {
        ShownMembers(g, g[v.id].properties.value, members);
      }
    case _ =>
  }

  lemma {:induction false} ShownElements(g: Graph, items: seq<Value>, es: Elements)
    requires ElementsShow(g, HiddenKeys(), items, es)
    ensures ElementKeysShown(es)
    decreases es, 0
  {
    if es.Push? {
      var k :| 0 <= k < |items| && Shows(g, HiddenKeys(), items[k], es.last) && ElementsShow(g, HiddenKeys(), items[..k], es.init);
      ShownElements(g, items[..k], es.init);
      ShownValue(g, items[k], es.last);
    }
  }

  lemma {:induction false} ShownMembers(g: Graph, properties: seq<Property>, ms: Members)
    requires MembersShow(g, HiddenKeys(), properties, ms)
    ensures MemberKeysShown(ms)
    decreases ms, 0
  {
    if ms.Assign? {
      var k :| 0 <= k < |properties| && MemberShows(g, HiddenKeys(), properties[k], ms.key, ms.value)
        && MembersShow(g, HiddenKeys(), properties[..k], ms.init);
      ShownMembers(g, properties[..k], ms.init);
      ShownValue(g, properties[k].access.value, ms.value);
      NotHiddenIsVisible(properties[k].key);
      CutIsShown(properties[k].key, ms.key);
    }
  }

  /** No key of the output has a listed word or starts with one, unless it is the cut of a longer key that has none. */
  lemma OutputKeys(g: Graph, root: nat)
    ensures KeysShown(SanitizeAuditMetadata(g, root))
  {
    OutputShowsRoot(g, root);
    var members := SanitizeAuditMetadata(g, root).members;
    if members != NoMembers {
      ShownMembers(g, g[root].properties.value, members);
    }
  }

  // ------------------------------------------------------------------------------------------ cut keys

  /** An object with one property that is null. */
  lemma NullShown(g: Graph, hidden: KeyFilter, source: Text, key: Text)
    requires g == [Plain(Some([Property(source, Some(Null))]))]
    requires !hidden(source) && key == First(source, 120) && key != [] && ByteLength(key) <= 480
    ensures SanitizeObject(g, hidden, 0, 0, State({}, 0, MAX_TOTAL_BYTES)).out == Some(ObjectOut(Assign(NoMembers, key, NullOut)))
  {
    var entered := State({0}, 0, MAX_TOTAL_BYTES);
    assert g[0].properties.value[1..] == [];
    assert State({}, 0, MAX_TOTAL_BYTES).(active := {} + {0}) == entered;
    assert SanitizeProperties(g, hidden, g[0].properties.value, 0, NoMembers, entered).members == Assign(NoMembers, key, NullOut);
  }

  /**
   * The key is cut after the test: a visible key with a listed word in its first 120 units is shown as a key that would
   * have been hidden.
   */
  lemma CutKeyShowsWord(source: Text)
    requires |source| > 120 && Visible(source) && Listed(source[..120]) && ByteLength(source[..120]) <= 480
    ensures HiddenKeys()(source[..120])
    ensures SanitizeAuditMetadata([Plain(Some([Property(source, Some(Null))]))], 0)
         == ObjectOut(Assign(NoMembers, source[..120], NullOut))
  {
    NotHiddenIsVisible(source);
    NotHiddenIsVisible(source[..120]);
    NullShown([Plain(Some([Property(source, Some(Null))]))], HiddenKeys(), source, source[..120]);
  }

  /** 114 times the letter x, then "_tokens". */
  function LongKey(): (key: Text)
    ensures |key| == 121
  {
    seq(114, _ => 0x78) + [0x5F, 0x74, 0x6F, 0x6B, 0x65, 0x6E, 0x73]
  }

  lemma LongKeyOpens(i: nat)
    requires i < 121 && OpensAt(LongKey(), i)
    ensures LongKey()[i] == 0x78 || i == 114 || i == 115
  {
    if i > 115 {
      assert Ascii(LongKey()[i - 1]);
    }
  }

  lemma NotAWordOfLongKey(w: Text, i: nat)
    requires PlainWord(w) && w[0] != 0x78 && (w[0] == 0x74 ==> |w| == 5)
    ensures !WordAt(LongKey(), w, i)
  {
    if WordAt(LongKey(), w, i) {
      LongKeyOpens(i);
    }
  }

  lemma LongKeyNotMarked(w: string)
    requires PlainWord(Units(w)) && Units(w)[0] != 0x78 && (Units(w)[0] == 0x74 ==> |w| == 5)
    ensures !Marked(LongKey(), w)
  {
    forall i: nat
      ensures !WordAt(LongKey(), Units(w), i)
    {
      NotAWordOfLongKey(Units(w), i);
    }
    assert LongKey()[0] == 0x78;
  }

  lemma NoWordMarks(t: nat)
    requires t < |TOKENS|
    ensures !Marked(LongKey(), TOKENS[t])
  {
    TokensArePlain(t);
    LongKeyNotMarked(TOKENS[t]);
  }

  lemma LongIsNoPrototype(key: Text)
    requires |key| > 11
    ensures !PrototypeKey(key)
  {
  }

  lemma NotMarkedIsVisible(key: Text)
    requires |key| > 11 && forall t: nat :: t < |TOKENS| ==> !Marked(key, TOKENS[t])
    ensures !HiddenKeys()(key)
  {
    SensitiveIsMarked(key);
    LongIsNoPrototype(key);
  }

  lemma LongKeyVisible()
    ensures !HiddenKeys()(LongKey())
  {
    forall t: nat | t < |TOKENS|
      ensures !Marked(LongKey(), TOKENS[t])
    {
      NoWordMarks(t);
    }
    NotMarkedIsVisible(LongKey());
  }

  lemma CutLongKeyHasToken()
    ensures HasWord(LongKey()[..120], Units("token"))
  {
    var key, w := LongKey()[..120], Units("token");
    assert key[115] == 0x74 && key[116] == 0x6F && key[117] == 0x6B && key[118] == 0x65 && key[119] == 0x6E;
    assert WordAt(key, w, 115);
  }

  /** Such a key exists: "token" is a word of the cut, and no word of the key, where it reads "tokens". */
  lemma LongKeyIsCut()
    ensures Visible(LongKey()) && HasWord(LongKey()[..120], Units("token"))
  {
    LongKeyVisible();
    NotHiddenIsVisible(LongKey());
    CutLongKeyHasToken();
  }
}
