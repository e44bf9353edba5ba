/**
 * The walk with its mutable state: the set of containers on the path, the node counter and the byte budget are fields
 * that the recursion changes.  Every method leaves exactly the state and the value the walk of module Sanitizer gives.
 */
module SanitizerWalk {
  import opened Common
  import opened Sanitizer

  class SanitizerState {
    var activeObjects: set<nat>
    var nodes: int
    var remainingBytes: int

    ghost function St(): State
      reads this
    {
      State(activeObjects, nodes, remainingBytes)
    }

    constructor ()
      ensures St() == State({}, 0, MAX_TOTAL_BYTES)
    {
      activeObjects, nodes, remainingBytes := {}, 0, MAX_TOTAL_BYTES;
    }

    /** Cuts the string at the length limit and then by quarters until its bytes fit. */
    method TakeString(value: Text) returns (candidate: Text)
      modifies this`remainingBytes
      ensures Step(Some(TextOut(candidate)), St()) == Sanitizer.TakeString(value, old(St()))
    {
      candidate := First(value, MAX_STRING_LENGTH);
      if |value| > MAX_STRING_LENGTH {
        candidate := candidate + [0x2026];
      } else {
        assert candidate + [] == candidate;
      }
      var available := if remainingBytes > 4 then remainingBytes - 4 else 0;
      while ByteLength(candidate) > available && candidate != []
        invariant Shrunk(candidate, available) == Shrunk(Candidate(value), available)
        decreases |candidate|
      {
        candidate := candidate[..|candidate| * 3 / 4];
      }
      remainingBytes := remainingBytes - (ByteLength(candidate) + 2);
    }

    method SanitizeValue(g: Graph, hidden: KeyFilter, value: Value, depth: nat) returns (out: Option<Out>)
      requires depth <= MAX_DEPTH
      modifies this
      ensures Step(out, St()) == Sanitizer.SanitizeValue(g, hidden, value, depth, old(St()))
      decreases MAX_DEPTH - depth, 3, 0
    {
      if nodes >= MAX_NODES || remainingBytes < 16 {
        return None;
      }
      nodes := nodes + 1;
      remainingBytes := remainingBytes - 4;
      match value
      case Null =>
        out := Some(NullOut);
      case Str(text) =>
        var taken := TakeString(text);
        out := Some(TextOut(taken));
      case NonFinite =>
        out := Some(NullOut);
      case Number(number, digits) =>
        remainingBytes := remainingBytes - digits;
        out := Some(NumberOut(number));
      case Boolean(flag) =>
        remainingBytes := remainingBytes - (if flag then 4 else 5);
        out := Some(BooleanOut(flag));
      case Unsupported =>
        out := None;
      case Ref(id) =>
        out := SanitizeReference(g, hidden, id, depth);
    }

    /** The part of sanitizeValue for objects. */
    method SanitizeReference(g: Graph, hidden: KeyFilter, id: nat, depth: nat) returns (out: Option<Out>)
      requires depth <= MAX_DEPTH
      modifies this
      ensures Step(out, St()) == Sanitizer.SanitizeReference(g, hidden, id, depth, old(St()))
      decreases MAX_DEPTH - depth, 2, 1
    {
      if id >= |g| {
        return None;
      }
      var marker := None;
      if depth >= MAX_DEPTH {
        marker := Some(Units("[Truncated]"));
      } else if g[id].DateObject? {
        marker := if g[id].iso.Some? then g[id].iso else Some(Units("[Invalid date]"));
      } else if g[id].Binary? {
        marker := Some(Units("[Binary omitted]"));
      } else if id in activeObjects {
        marker := Some(Units("[Circular]"));
      }
      if marker.Some? {
        var taken := TakeString(marker.value);
        return Some(TextOut(taken));
      }
      if g[id].Array? {
        activeObjects := activeObjects + {id};
        var result := SanitizeItems(g, hidden, First(g[id].items, MAX_COLLECTION_ITEMS), depth);
        activeObjects := activeObjects - {id};
        return Some(ArrayOut(result));
      }
      out := SanitizeObject(g, hidden, id, depth);
    }

    /** The loop over the items of an array. */
    method SanitizeItems(g: Graph, hidden: KeyFilter, items: seq<Value>, depth: nat) returns (result: Elements)
      requires depth < MAX_DEPTH
      modifies this
      ensures Walked(result, St()) == Sanitizer.SanitizeItems(g, hidden, items, depth, NoElements, old(St()))
      decreases MAX_DEPTH - depth, 1, |items|
    {
      result := NoElements;
      var i := 0;
      while i < |items|
        invariant 0 <= i <= |items|
        invariant Sanitizer.SanitizeItems(g, hidden, items[i..], depth, result, St())
               == Sanitizer.SanitizeItems(g, hidden, items, depth, NoElements, old(St()))
      {
        assert items[i..][0] == items[i] && items[i..][1..] == items[i + 1..];
        var sanitized := SanitizeValue(g, hidden, items[i], depth + 1);
        if sanitized.Some? {
          result := Push(result, sanitized.value);
        }
        if remainingBytes < 16 || nodes >= MAX_NODES {
          return;
        }
        i := i + 1;
      }
    }

    method SanitizeObject(g: Graph, hidden: KeyFilter, id: nat, depth: nat) returns (out: Option<Out>)
      requires depth < MAX_DEPTH
      modifies this
      ensures Step(out, St()) == Sanitizer.SanitizeObject(g, hidden, id, depth, old(St()))
      decreases MAX_DEPTH - depth, 2, 0
    {
      if id in activeObjects {
        return None;
      }
      activeObjects := activeObjects + {id};
      if id >= |g| || !g[id].Plain? || g[id].properties.None? {
        activeObjects := activeObjects - {id};
        return Some(ObjectOut(NoMembers));
      }
      var result := SanitizeProperties(g, hidden, g[id].properties.value, depth);
      activeObjects := activeObjects - {id};
      out := Some(ObjectOut(result));
    }

    /** The loop over the keys of an object. */
    method SanitizeProperties(g: Graph, hidden: KeyFilter, properties: seq<Property>, depth: nat) returns (result: Members)
      requires depth < MAX_DEPTH
      modifies this
      ensures Visited(result, St()) == Sanitizer.SanitizeProperties(g, hidden, properties, depth, NoMembers, old(St()))
      decreases MAX_DEPTH - depth, 1, |properties|
    {
      result := NoMembers;
      var acceptedKeys := 0;
      var i := 0;
      while i < |properties|
        invariant 0 <= i <= |properties| && acceptedKeys == MemberCount(result)
        invariant Sanitizer.SanitizeProperties(g, hidden, properties[i..], depth, result, St())
               == Sanitizer.SanitizeProperties(g, hidden, properties, depth, NoMembers, old(St()))
      {
        if acceptedKeys >= MAX_COLLECTION_ITEMS {
          return;
        }
        var p := properties[i];
        assert properties[i..][0] == p && properties[i..][1..] == properties[i + 1..];
        i := i + 1;
        if hidden(p.key) {
          continue;
        }
        var safeKey := First(p.key, MAX_KEY_LENGTH);
        if safeKey == [] || HasKey(result, safeKey) {
          continue;
        }
        var keyCost := ByteLength(safeKey) + 4;
        if remainingBytes <= keyCost + 16 {
          return;
        }
        remainingBytes := remainingBytes - keyCost;
        if p.access.None? {
          continue;
        }
        var sanitized := SanitizeValue(g, hidden, p.access.value, depth + 1);
        if sanitized.Some? {
          result := Assign(result, safeKey, sanitized.value);
          acceptedKeys := acceptedKeys + 1;
        }
        if remainingBytes < 16 || nodes >= MAX_NODES {
          return;
        }
      }
    }
  }

  /** sanitizeAuditMetadata: a fresh state and the root object. */
  method Sanitize(g: Graph, root: nat) returns (metadata: Out)
    ensures metadata == SanitizeAuditMetadata(g, root)
  {
    var state := new SanitizerState();
    var sanitized := state.SanitizeObject(g, HiddenKeys(), root, 0);
    metadata := if sanitized.None? then ObjectOut(NoMembers) else sanitized.value;
  }
}
