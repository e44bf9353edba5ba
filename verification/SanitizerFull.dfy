/** What the sanitizer leaves alone: a graph within the budgets is shown in full. */
module SanitizerFull {
  import opened Common
  import opened Sanitizer

  // ----------------------------------------------------------------------------------- full rendering

  /** The bytes a value is charged; the decimal form of a number has at most 25 characters. */
  function Cost(o: Out): nat {
    match o
    case NullOut => 4
    case TextOut(text) => 4 + ByteLength(text) + 2
    case NumberOut(_) => 4 + 25
    case BooleanOut(_) => 4 + 5
    case ArrayOut(elements) => 4 + ElementsCost(elements)
    case ObjectOut(members) => 4 + MembersCost(members)
  }

  function ElementsCost(es: Elements): nat {
    match es
    case NoElements => 0
    case Push(init, last) => ElementsCost(init) + Cost(last)
  }

  function MembersCost(ms: Members): nat {
    match ms
    case NoMembers => 0
    case Assign(init, key, value) => MembersCost(init) + (ByteLength(key) + 4 + Cost(value))
  }

  /** The text of an object that is not a container. */
  predicate Written(o: Object, text: Text) {
    || (o.DateObject? && text == if o.iso.Some? then o.iso.value else Units("[Invalid date]"))
    || (o.Binary? && text == Units("[Binary omitted]"))
  }

  /**
   * The output is the whole value: every item of every array and every property of every object, in order, with its own
   * key and its own text, and objects at most so many levels deep.
   */
  ghost predicate Full(g: Graph, hidden: KeyFilter, v: Value, o: Out, levels: int)
    decreases o
  {
    match o
    case NullOut => v == Null || v == NonFinite
    case TextOut(text) =>
      |text| <= 2000 && (v == Str(text) || (v.Ref? && v.id < |g| && Written(g[v.id], text) && levels >= 1))
    case NumberOut(value) => v.Number? && v.value == value && v.digits <= 25
    case BooleanOut(flag) => v == Boolean(flag)
    case ArrayOut(elements) =>
      && v.Ref? && v.id < |g| && g[v.id].Array? && levels >= 1
      && |g[v.id].items| <= 50 && ElementsFull(g, hidden, g[v.id].items, elements, levels - 1)
    case ObjectOut(members) => v.Ref? && levels >= 1 && ObjectFull(g, hidden, v.id, members, levels - 1)
  }

  ghost predicate ObjectFull(g: Graph, hidden: KeyFilter, id: nat, members: Members, levels: int)
    decreases members, 1
  {
    && id < |g| && g[id].Plain? && g[id].properties.Some? && |g[id].properties.value| <= 50
    && MembersFull(g, hidden, g[id].properties.value, members, levels)
  }

  ghost predicate ElementsFull(g: Graph, hidden: KeyFilter, items: seq<Value>, es: Elements, levels: int)
    decreases es
  {
    match es
    case NoElements => items == []
    case Push(init, last) =>
      && items != [] && Full(g, hidden, items[|items| - 1], last, levels)
      && ElementsFull(g, hidden, items[..|items| - 1], init, levels)
  }

  ghost predicate MembersFull(g: Graph, hidden: KeyFilter, properties: seq<Property>, ms: Members, levels: int)
    decreases ms, 0
  {
    match ms
    case NoMembers => properties == []
    case Assign(init, key, value) =>
      && properties != []
      && var p := properties[|properties| - 1];
         && p.key == key && !hidden(key) && 1 <= |key| <= 120 && !HasKey(init, key)
         && p.access.Some? && Full(g, hidden, p.access.value, value, levels)
         && MembersFull(g, hidden, properties[..|properties| - 1], init, levels)
  }

  // -------------------------------------------------------------------------------------- determinism

  lemma {:induction false} OneRendering(g: Graph, hidden: KeyFilter, v: Value, o: Out, m: int, o': Out, n: int)
    requires Full(g, hidden, v, o, m) && Full(g, hidden, v, o', n)
    ensures o == o'
    decreases o
  {
    match o
    case ArrayOut(elements) => OneElements(g, hidden, g[v.id].items, elements, m - 1, o'.elements, n - 1);
    case ObjectOut(members) => OneMembers(g, hidden, g[v.id].properties.value, members, m - 1, o'.members, n - 1);
    case _ =>
  }

  lemma {:induction false} OneElements(g: Graph, hidden: KeyFilter, items: seq<Value>, es: Elements, m: int, es': Elements, n: int)
    requires ElementsFull(g, hidden, items, es, m) && ElementsFull(g, hidden, items, es', n)
    ensures es == es'
    decreases es
  {
    if es.Push? {
      OneElements(g, hidden, items[..|items| - 1], es.init, m, es'.init, n);
      OneRendering(g, hidden, items[|items| - 1], es.last, m, es'.last, n);
    }
  }

  lemma {:induction false} OneMembers(g: Graph, hidden: KeyFilter, properties: seq<Property>, ms: Members, m: int, ms': Members, n: int)
    requires MembersFull(g, hidden, properties, ms, m) && MembersFull(g, hidden, properties, ms', n)
    ensures ms == ms'
    decreases ms
  {
    if ms.Assign? {
      OneMembers(g, hidden, properties[..|properties| - 1], ms.init, m, ms'.init, n);
      OneRendering(g, hidden, properties[|properties| - 1].access.value, ms.value, m, ms'.value, n);
    }
  }

  // --------------------------------------------------------------------------------------------- room

  /** The containers on the path are larger than what is still to be written, so none of them comes again. */
  ghost predicate Above(g: Graph, hidden: KeyFilter, active: set<nat>, size: int) {
    forall a :: a in active ==> Holds(g, hidden, a, size)
  }

  ghost predicate Holds(g: Graph, hidden: KeyFilter, id: nat, size: int) {
    exists o: Out, levels: int :: Full(g, hidden, Ref(id), o, levels) && Size(o) > size
  }

  lemma NotAgain(g: Graph, hidden: KeyFilter, active: set<nat>, id: nat, o: Out, levels: int)
    requires Full(g, hidden, Ref(id), o, levels) && Above(g, hidden, active, Size(o))
    ensures id !in active
  {
    if id in active {
      assert Holds(g, hidden, id, Size(o));
      var big: Out, m: int :| Full(g, hidden, Ref(id), big, m) && Size(big) > Size(o);
      OneRendering(g, hidden, Ref(id), o, levels, big, m);
    }
  }

  lemma AboveLess(g: Graph, hidden: KeyFilter, active: set<nat>, size: int, less: int)
    requires Above(g, hidden, active, size) && less <= size
    ensures Above(g, hidden, active, less)
  {
    forall a | a in active
      ensures Holds(g, hidden, a, less)
    {
      assert Holds(g, hidden, a, size);
    }
  }

  lemma AboveEntered(g: Graph, hidden: KeyFilter, active: set<nat>, id: nat, o: Out, levels: int, less: int)
    requires Full(g, hidden, Ref(id), o, levels) && Above(g, hidden, active, Size(o)) && less < Size(o)
    ensures Above(g, hidden, active + {id}, less)
  {
    AboveLess(g, hidden, active, Size(o), less);
    assert Holds(g, hidden, id, less);
  }

  /** The budgets hold so many values and bytes more, and are not spent afterwards. */
  predicate Room(st: State, size: int, cost: int) {
    st.nodes + size < MAX_NODES && cost + 32 <= st.remaining
  }

  /** What was written was counted, charged at most its cost, and the path is as before. */
  predicate Charged(before: State, after: State, size: int, cost: int) {
    after.active == before.active && after.nodes == before.nodes + size && before.remaining - cost <= after.remaining
  }

  // ----------------------------------------------------------------------------------------- prefixes

  /** The first n elements. */
  function TakeElements(es: Elements, n: nat): Elements
    requires n <= ElementCount(es)
  {
    if ElementCount(es) == n then es else TakeElements(es.init, n)
  }

  function TakeMembers(ms: Members, n: nat): Members
    requires n <= MemberCount(ms)
  {
    if MemberCount(ms) == n then ms else TakeMembers(ms.init, n)
  }

  lemma {:induction false} ElementsCounted(g: Graph, hidden: KeyFilter, items: seq<Value>, es: Elements, levels: int)
    requires ElementsFull(g, hidden, items, es, levels)
    ensures ElementCount(es) == |items|
  {
    if es.Push? {
      ElementsCounted(g, hidden, items[..|items| - 1], es.init, levels);
    }
  }

  lemma {:induction false} MembersCounted(g: Graph, hidden: KeyFilter, properties: seq<Property>, ms: Members, levels: int)
    requires MembersFull(g, hidden, properties, ms, levels)
    ensures MemberCount(ms) == |properties|
  {
    if ms.Assign? {
      MembersCounted(g, hidden, properties[..|properties| - 1], ms.init, levels);
    }
  }

  /** The element at i comes behind the first i, and is the whole item at i. */
  lemma {:induction false} ElementAt(g: Graph, hidden: KeyFilter, items: seq<Value>, es: Elements, levels: int, i: nat)
    requires ElementsFull(g, hidden, items, es, levels) && i < |items| == ElementCount(es)
    ensures var upTo, before := TakeElements(es, i + 1), TakeElements(es, i);
            && upTo.Push? && upTo.init == before && Full(g, hidden, items[i], upTo.last, levels)
            && ElementsSize(before) + Size(upTo.last) == ElementsSize(upTo) <= ElementsSize(es)
            && ElementsCost(before) + Cost(upTo.last) == ElementsCost(upTo) <= ElementsCost(es)
  {
    if i + 1 < |items| {
      ElementsCounted(g, hidden, items[..|items| - 1], es.init, levels);
      ElementAt(g, hidden, items[..|items| - 1], es.init, levels, i);
    }
  }

  /** The member at i comes behind the first i, under the key of the property at i. */
  lemma {:induction false} MemberAt(g: Graph, hidden: KeyFilter, properties: seq<Property>, ms: Members, levels: int, i: nat)
    requires MembersFull(g, hidden, properties, ms, levels) && i < |properties| == MemberCount(ms)
    ensures var upTo, before, p := TakeMembers(ms, i + 1), TakeMembers(ms, i), properties[i];
            && upTo.Assign? && upTo.init == before && upTo.key == p.key && MemberCount(before) == i
            && !hidden(p.key) && 1 <= |p.key| <= 120 && !HasKey(before, p.key)
            && p.access.Some? && Full(g, hidden, p.access.value, upTo.value, levels)
            && MembersSize(before) + Size(upTo.value) == MembersSize(upTo) <= MembersSize(ms)
            && MembersCost(before) + (ByteLength(p.key) + 4 + Cost(upTo.value)) == MembersCost(upTo) <= MembersCost(ms)
  {
    if i + 1 < |properties| {
      MembersCounted(g, hidden, properties[..|properties| - 1], ms.init, levels);
      MemberAt(g, hidden, properties[..|properties| - 1], ms.init, levels, i);
    }
  }

  // --------------------------------------------------------------------------------------------- walk

  lemma TextTaken(text: Text, st: State)
    requires |text| <= 2000 && ByteLength(text) + 4 <= st.remaining
    ensures TakeString(text, st) == Sanitizer.Step(Some(TextOut(text)), st.(remaining := st.remaining - (ByteLength(text) + 2)))
  {
    assert Candidate(text) == text;
    ShrunkFits(text, st.remaining - 4);
  }

  lemma {:induction false} ValueInFull(g: Graph, hidden: KeyFilter, v: Value, depth: nat, o: Out, st: State)
    requires depth <= MAX_DEPTH && Full(g, hidden, v, o, MAX_DEPTH - depth)
    requires Room(st, Size(o), Cost(o)) && Above(g, hidden, st.active, Size(o))
    ensures var step := SanitizeValue(g, hidden, v, depth, st);
            step.out == Some(o) && Charged(st, step.state, Size(o), Cost(o))
    decreases MAX_DEPTH - depth, 3, 0
  {
    if v.Ref? {
      var counted := st.(nodes := st.nodes + 1, remaining := st.remaining - 4);
      CostsFour(o);
      ReferenceInFull(g, hidden, v.id, depth, o, counted);
      ReferenceCounted(g, hidden, v.id, depth, st);
    } else {
      PlainInFull(g, hidden, v, depth, o, st);
    }
  }

  lemma CostsFour(o: Out)
    ensures Cost(o) >= 4 && Size(o) >= 1
  {
  }

  /** An object value is counted and charged four bytes first. */
  lemma ReferenceCounted(g: Graph, hidden: KeyFilter, id: nat, depth: nat, st: State)
    requires depth <= MAX_DEPTH && !Spent(st)
    ensures SanitizeValue(g, hidden, Ref(id), depth, st)
         == SanitizeReference(g, hidden, id, depth, st.(nodes := st.nodes + 1, remaining := st.remaining - 4))
  {
  }

  lemma PlainInFull(g: Graph, hidden: KeyFilter, v: Value, depth: nat, o: Out, st: State)
    requires depth <= MAX_DEPTH && Full(g, hidden, v, o, MAX_DEPTH - depth) && !v.Ref? && Room(st, Size(o), Cost(o))
    ensures var step := SanitizeValue(g, hidden, v, depth, st);
            step.out == Some(o) && Charged(st, step.state, Size(o), Cost(o))
  {
    if v.Str? {
      TextTaken(v.text, st.(nodes := st.nodes + 1, remaining := st.remaining - 4));
    }
  }

  /** An object value, after it was counted. */
  lemma {:induction false} ReferenceInFull(g: Graph, hidden: KeyFilter, id: nat, depth: nat, o: Out, st: State)
    requires depth <= MAX_DEPTH && Full(g, hidden, Ref(id), o, MAX_DEPTH - depth)
    requires Room(st, Size(o) - 1, Cost(o) - 4) && Above(g, hidden, st.active, Size(o))
    ensures var step := SanitizeReference(g, hidden, id, depth, st);
            step.out == Some(o) && Charged(st, step.state, Size(o) - 1, Cost(o) - 4)
    decreases MAX_DEPTH - depth, 2, 1
  {
    NotAgain(g, hidden, st.active, id, o, MAX_DEPTH - depth);
    match o
    case TextOut(text) => TextTaken(text, st);
    case ArrayOut(elements) =>
      var entered := st.(active := st.active + {id});
      AboveEntered(g, hidden, st.active, id, o, MAX_DEPTH - depth, ElementsSize(elements));
      ArrayInFull(g, hidden, g[id].items, depth, elements, entered);
      assert st.active + {id} - {id} == st.active;
    case ObjectOut(members) =>
      AboveEntered(g, hidden, st.active, id, o, MAX_DEPTH - depth, MembersSize(members));
      ObjectInFull(g, hidden, id, depth, members, st);
  }

  lemma {:induction false} ArrayInFull(g: Graph, hidden: KeyFilter, items: seq<Value>, depth: nat, es: Elements, st: State)
    requires depth < MAX_DEPTH && |items| <= 50 && ElementsFull(g, hidden, items, es, MAX_DEPTH - depth - 1)
    requires Room(st, ElementsSize(es), ElementsCost(es)) && Above(g, hidden, st.active, ElementsSize(es))
    ensures var walked := SanitizeItems(g, hidden, First(items, MAX_COLLECTION_ITEMS), depth, NoElements, st);
            walked.elements == es && Charged(st, walked.state, ElementsSize(es), ElementsCost(es))
    decreases MAX_DEPTH - depth, 1, |items| + 1
  {
    ElementsCounted(g, hidden, items, es, MAX_DEPTH - depth - 1);
    NoElementsTaken(es);
    ItemsInFull(g, hidden, items, 0, depth, es, st);
    assert items[0..] == items;
  }

  lemma {:induction false} NoElementsTaken(es: Elements)
    ensures TakeElements(es, 0) == NoElements
  {
    if es.Push? {
      NoElementsTaken(es.init);
    }
  }

  lemma {:induction false} NoMembersTaken(ms: Members)
    ensures TakeMembers(ms, 0) == NoMembers
  {
    if ms.Assign? {
      NoMembersTaken(ms.init);
    }
  }

  lemma {:induction false} ItemsInFull(g: Graph, hidden: KeyFilter, all: seq<Value>, i: nat, depth: nat, es: Elements, st: State)
    requires depth < MAX_DEPTH && i <= |all| == ElementCount(es) && ElementsFull(g, hidden, all, es, MAX_DEPTH - depth - 1)
    requires var before := TakeElements(es, i);
             && Room(st, ElementsSize(es) - ElementsSize(before), ElementsCost(es) - ElementsCost(before))
             && Above(g, hidden, st.active, ElementsSize(es))
    ensures var before := TakeElements(es, i);
            var walked := SanitizeItems(g, hidden, all[i..], depth, before, st);
            && walked.elements == es
            && Charged(st, walked.state, ElementsSize(es) - ElementsSize(before), ElementsCost(es) - ElementsCost(before))
    decreases MAX_DEPTH - depth, 1, |all| - i
  {
    if i < |all| {
      ElementAt(g, hidden, all, es, MAX_DEPTH - depth - 1, i);
      var o := TakeElements(es, i + 1).last;
      assert all[i..][0] == all[i] && all[i..][1..] == all[i + 1..];
      AboveLess(g, hidden, st.active, ElementsSize(es), Size(o));
      ValueInFull(g, hidden, all[i], depth + 1, o, st);
      ItemsInFull(g, hidden, all, i + 1, depth, es, SanitizeValue(g, hidden, all[i], depth + 1, st).state);
    }
  }

  lemma {:induction false} ObjectInFull(g: Graph, hidden: KeyFilter, id: nat, depth: nat, ms: Members, st: State)
    requires depth < MAX_DEPTH && ObjectFull(g, hidden, id, ms, MAX_DEPTH - depth - 1) && id !in st.active
    requires Room(st, MembersSize(ms), MembersCost(ms)) && Above(g, hidden, st.active + {id}, MembersSize(ms))
    ensures var step := SanitizeObject(g, hidden, id, depth, st);
            step.out == Some(ObjectOut(ms)) && Charged(st, step.state, MembersSize(ms), MembersCost(ms))
    decreases MAX_DEPTH - depth, 2, 0
  {
    var properties := g[id].properties.value;
    MembersCounted(g, hidden, properties, ms, MAX_DEPTH - depth - 1);
    NoMembersTaken(ms);
    PropertiesInFull(g, hidden, properties, 0, depth, ms, st.(active := st.active + {id}));
    assert properties[0..] == properties;
    assert st.active + {id} - {id} == st.active;
  }

  /** One turn of the key loop over a property that is shown. */
  lemma PropertyTurn(g: Graph, hidden: KeyFilter, p: Property, rest: seq<Property>, depth: nat, result: Members, st: State, charged: State,
                     o: Out, after: State)
    requires depth < MAX_DEPTH && MemberCount(result) < MAX_COLLECTION_ITEMS
    requires !hidden(p.key) && 1 <= |p.key| <= MAX_KEY_LENGTH && !HasKey(result, p.key) && p.access.Some?
    requires st.remaining > ByteLength(p.key) + 4 + 16 && charged == st.(remaining := st.remaining - (ByteLength(p.key) + 4))
    requires SanitizeValue(g, hidden, p.access.value, depth + 1, charged) == Sanitizer.Step(Some(o), after) && !Spent(after)
    ensures SanitizeProperties(g, hidden, [p] + rest, depth, result, st)
         == SanitizeProperties(g, hidden, rest, depth, Assign(result, p.key, o), after)
  {
    var properties := [p] + rest;
    assert properties[0] == p && properties[1..] == rest;
    assert First(p.key, MAX_KEY_LENGTH) == p.key;
  }

  lemma {:induction false} PropertiesInFull(g: Graph, hidden: KeyFilter, all: seq<Property>, i: nat, depth: nat, ms: Members, st: State)
    requires depth < MAX_DEPTH && i <= |all| == MemberCount(ms) <= 50 && MembersFull(g, hidden, all, ms, MAX_DEPTH - depth - 1)
    requires var before := TakeMembers(ms, i);
             && Room(st, MembersSize(ms) - MembersSize(before), MembersCost(ms) - MembersCost(before))
             && Above(g, hidden, st.active, MembersSize(ms))
    ensures var before := TakeMembers(ms, i);
            var visited := SanitizeProperties(g, hidden, all[i..], depth, before, st);
            && visited.members == ms
            && Charged(st, visited.state, MembersSize(ms) - MembersSize(before), MembersCost(ms) - MembersCost(before))
    decreases MAX_DEPTH - depth, 1, |all| - i, 1
  {
    if i < |all| {
      var after := PropertyInFull(g, hidden, all, i, depth, ms, st);
      PropertiesInFull(g, hidden, all, i + 1, depth, ms, after);
    }
  }

  /** The property at i is shown, and the loop goes on behind it. */
  lemma {:induction false} PropertyInFull(g: Graph, hidden: KeyFilter, all: seq<Property>, i: nat, depth: nat, ms: Members, st: State)
    returns (after: State)
    requires depth < MAX_DEPTH && i < |all| == MemberCount(ms) <= 50 && MembersFull(g, hidden, all, ms, MAX_DEPTH - depth - 1)
    requires var before := TakeMembers(ms, i);
             && Room(st, MembersSize(ms) - MembersSize(before), MembersCost(ms) - MembersCost(before))
             && Above(g, hidden, st.active, MembersSize(ms))
    ensures var before, upTo := TakeMembers(ms, i), TakeMembers(ms, i + 1);
            && Charged(st, after, MembersSize(upTo) - MembersSize(before), MembersCost(upTo) - MembersCost(before))
            && MembersSize(upTo) <= MembersSize(ms) && MembersCost(upTo) <= MembersCost(ms)
            && SanitizeProperties(g, hidden, all[i..], depth, before, st) == SanitizeProperties(g, hidden, all[i + 1..], depth, upTo, after)
    decreases MAX_DEPTH - depth, 1, |all| - i, 0
  {
    MemberAt(g, hidden, all, ms, MAX_DEPTH - depth - 1, i);
    var o, p := TakeMembers(ms, i + 1).value, all[i];
    var charged := st.(remaining := st.remaining - (ByteLength(p.key) + 4));
    assert all[i..] == [p] + all[i + 1..];
    AboveLess(g, hidden, st.active, MembersSize(ms), Size(o));
    ValueInFull(g, hidden, p.access.value, depth + 1, o, charged);
    after := SanitizeValue(g, hidden, p.access.value, depth + 1, charged).state;
    PropertyTurn(g, hidden, p, all[i + 1..], depth, TakeMembers(ms, i), st, charged, o, after);
  }

  lemma RootInFull(g: Graph, hidden: KeyFilter, root: nat, ms: Members, st: State)
    requires ObjectFull(g, hidden, root, ms, 5) && Room(st, MembersSize(ms), MembersCost(ms)) && st.active == {}
    ensures SanitizeObject(g, hidden, root, 0, st).out == Some(ObjectOut(ms))
  {
    assert Full(g, hidden, Ref(root), ObjectOut(ms), 6);
    AboveEntered(g, hidden, {}, root, ObjectOut(ms), 6, MembersSize(ms));
    ObjectInFull(g, hidden, root, 0, ms, st);
  }

  /**
   * A root within the budgets is shown in full: if its whole rendering has at most 6 levels of containers of at most 50
   * entries, texts of at most 2000 and keys of at most 120 units that are visible and distinct, fewer than 500 values
   * below the root, and costs at most 15968 bytes, the output is that rendering, whatever else the graph holds.
   */
  lemma ShownInFull(g: Graph, root: nat, ms: Members)
    requires ObjectFull(g, HiddenKeys(), root, ms, 5) && MembersSize(ms) < 500 && MembersCost(ms) <= 15968
    ensures SanitizeAuditMetadata(g, root) == ObjectOut(ms)
  {
    RootInFull(g, HiddenKeys(), root, ms, State({}, 0, MAX_TOTAL_BYTES));
  }
}
