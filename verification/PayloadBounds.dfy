/** Size-bounding of agent-facing payloads (netopsbench/platform/incident/payloads.py). A
    dictionary is its members in key order; text sizes are given by an encoder. */
module PayloadBounds {

  datatype Json =
    | Number(value: nat)
    | Literal(bytes: nat)
    | Text(text: string)
    | Array(items: seq<Json>)
    | Object(members: seq<Member>)

  datatype Member = Member(key: string, value: Json)

  /** The encoder: quoted size of a text, and the text cut to a number of bytes. */
  datatype Encoder = Encoder(quoted: string -> nat, cut: (string, nat) -> string)

  function Digits(n: nat): nat {
    if n < 10 then 1 else 1 + Digits(n / 10)
  }

  // ---------------------------------------------------------------- sizes

  /** `json_size` with compact separators. */
  function JsonSize(v: Json, e: Encoder): nat {
    match v
    case Number(n) => Digits(n)
    case Literal(b) => b
    case Text(t) => e.quoted(t)
    case Array(items) => 2 + ItemsSize(items, e) + Commas(|items|)
    case Object(members) => 2 + MembersSize(members, e) + Commas(|members|)
  }

  function ItemsSize(items: seq<Json>, e: Encoder): nat {
    if items == [] then 0 else JsonSize(items[0], e) + ItemsSize(items[1..], e)
  }

  function MembersSize(members: seq<Member>, e: Encoder): nat {
    if members == [] then 0 else
      e.quoted(members[0].key) + 1 + JsonSize(members[0].value, e) + MembersSize(members[1..], e)
  }

  function Commas(n: nat): nat { if n == 0 then 0 else n - 1 }

  // ---------------------------------------------------------------- markers

  /** The truncation marker with the original size. */
  function MarkerMembers(originalBytes: nat): seq<Member> {
    [Member("truncated", Literal(4)), Member("original_bytes", Number(originalBytes))]
  }

  const TRUNCATION := "_truncation"

  function Omission(originalBytes: nat, omitted: nat): Member {
    Member(TRUNCATION, Object(MarkerMembers(originalBytes) + [Member("omitted_items", Number(omitted))]))
  }

  /** What a child may use: the budget less 256 bytes beside what is used, and never under 128. */
  function Remaining(budget: int, used: nat): (r: nat)
    ensures r >= 128 && r + used + 256 >= budget && (r == 128 || r + used + 256 == budget)
  {
    if budget - used - 256 >= 128 then budget - used - 256 else 128
  }

  // ---------------------------------------------------------------- what compaction keeps

  /** Members kept after `done`: each next one is compacted into the remaining budget and kept
      while the candidate with its omission marker fits. */
  function KeepMembers(members: seq<Member>, done: seq<Member>, budget: int, original: nat, e: Encoder): (kept: seq<Member>)
    requires |done| <= |members|
    ensures done <= kept && |kept| <= |members|
    decreases members, |members| - |done|
  {
    if |done| == |members| then done else
      var m := members[|done|];
      var next := done + [Member(m.key, Compacted(m.value, Remaining(budget, JsonSize(Object(done), e)), original, e))];
      if JsonSize(Object(next + [Omission(original, |members| - |next|)]), e) > budget then done
      else KeepMembers(members, next, budget, original, e)
  }

  function KeepItems(items: seq<Json>, done: seq<Json>, budget: int, original: nat, e: Encoder): (kept: seq<Json>)
    requires |done| <= |items|
    ensures done <= kept && |kept| <= |items|
    decreases items, |items| - |done|
  {
    if |done| == |items| then done else
      var next := done + [Compacted(items[|done|], Remaining(budget, JsonSize(Array(done), e)), original, e)];
      if JsonSize(Array(next + [Object([Omission(original, |items| - |next|)])]), e) > budget then done
      else KeepItems(items, next, budget, original, e)
  }

  /** `_compact`. */
  function Compacted(v: Json, budget: int, original: nat, e: Encoder): Json
    decreases v
  {
    match v
    case Object(members) =>
      var kept := KeepMembers(members, [], budget, original, e);
      Object(kept + [Omission(original, |members| - |kept|)])
    case Array(items) =>
      var kept := KeepItems(items, [], budget, original, e);
      Array(kept + [Object([Omission(original, |items| - |kept|)])])
    case Text(t) =>
      Object([Member("_truncated_text", Text(e.cut(t, if budget >= 160 then budget - 160 else 0))),
              Member("original_chars", Number(|t|))])
    case _ => v
  }

  // ---------------------------------------------------------------- the loops

  /** The loop over sorted items: insert, test the candidate, pop and stop if it does not fit. */
  method CompactMembers(members: seq<Member>, budget: int, original: nat, e: Encoder) returns (output: seq<Member>)
    ensures output == KeepMembers(members, [], budget, original, e)
    decreases members
  {
    output := [];
    for index := 0 to |members|
      invariant |output| == index
      invariant KeepMembers(members, output, budget, original, e) == KeepMembers(members, [], budget, original, e)
    {
      var remaining := Remaining(budget, JsonSize(Object(output), e));
      var child := Compact(members[index].value, remaining, original, e);
      output := output + [Member(members[index].key, child)];
      var candidate := Object(output + [Omission(original, |members| - index - 1)]);
      if JsonSize(candidate, e) > budget {
        output := output[..index];
        break;
      }
    }
  }

  method CompactItems(items: seq<Json>, budget: int, original: nat, e: Encoder) returns (output: seq<Json>)
    ensures output == KeepItems(items, [], budget, original, e)
    decreases items
  {
    output := [];
    for index := 0 to |items|
      invariant |output| == index
      invariant KeepItems(items, output, budget, original, e) == KeepItems(items, [], budget, original, e)
    {
      var remaining := Remaining(budget, JsonSize(Array(output), e));
      var child := Compact(items[index], remaining, original, e);
      output := output + [child];
      var candidate := Array(output + [Object([Omission(original, |items| - index - 1)])]);
      if JsonSize(candidate, e) > budget {
        output := output[..index];
        break;
      }
    }
  }

  /** `_compact`. */
  method Compact(v: Json, budget: int, original: nat, e: Encoder) returns (r: Json)
    ensures r == Compacted(v, budget, original, e)
    decreases v
  {
    match v {
      case Object(members) =>
        var kept := CompactMembers(members, budget, original, e);
        r := Object(kept + [Omission(original, |members| - |kept|)]);
      case Array(items) =>
        var kept := CompactItems(items, budget, original, e);
        r := Array(kept + [Object([Omission(original, |items| - |kept|)])]);
      case Text(t) =>
        r := Object([Member("_truncated_text", Text(e.cut(t, if budget >= 160 then budget - 160 else 0))),
                     Member("original_chars", Number(|t|))]);
      case _ =>
        r := v;
    }
  }

  function BareMarker(original: nat): Json {
    Object([Member(TRUNCATION, Object(MarkerMembers(original)))])
  }

  /** `compact_json`: the bound holds exactly when the value, its compaction or the bare marker fits. */
  method CompactJson(v: Json, maxBytes: int, e: Encoder) returns (r: Json)
    ensures JsonSize(v, e) <= maxBytes ==> r == v
    ensures JsonSize(v, e) > maxBytes && JsonSize(Compacted(v, maxBytes, JsonSize(v, e), e), e) > maxBytes ==>
              r == Object([Member("_truncation", Object([Member("truncated", Literal(4)),
                                                         Member("original_bytes", Number(JsonSize(v, e)))]))])
    ensures JsonSize(v, e) > maxBytes && JsonSize(Compacted(v, maxBytes, JsonSize(v, e), e), e) <= maxBytes ==>
              r == Compacted(v, maxBytes, JsonSize(v, e), e)
    ensures JsonSize(r, e) <= maxBytes <==>
            || JsonSize(v, e) <= maxBytes
            || JsonSize(Compacted(v, maxBytes, JsonSize(v, e), e), e) <= maxBytes
            || JsonSize(BareMarker(JsonSize(v, e)), e) <= maxBytes
  {
    var original := JsonSize(v, e);
    if original <= maxBytes {
      return v;
    }
    r := Compact(v, maxBytes, original, e);
    if JsonSize(r, e) > maxBytes {
      r := BareMarker(original);
    }
  }

  // ---------------------------------------------------------------- what is kept

  /** An accepted candidate with `kept` members fits. */
  ghost predicate MembersFit(members: seq<Member>, kept: seq<Member>, budget: int, original: nat, e: Encoder) {
    |kept| <= |members| && JsonSize(Object(kept + [Omission(original, |members| - |kept|)]), e) <= budget
  }

  /** Each kept member has the key of its position and its value compacted into what the
      members before it leave. */
  ghost predicate MembersPrefix(members: seq<Member>, kept: seq<Member>, budget: int, original: nat, e: Encoder) {
    && |kept| <= |members|
    && forall i :: 0 <= i < |kept| ==>
                     && kept[i].key == members[i].key
                     && kept[i].value == Compacted(members[i].value, Remaining(budget, JsonSize(Object(kept[..i]), e)), original, e)
  }

  lemma {:induction false} KeptMembers(members: seq<Member>, done: seq<Member>, budget: int, original: nat, e: Encoder)
    requires MembersPrefix(members, done, budget, original, e)
    requires done == [] || MembersFit(members, done, budget, original, e)
    ensures var kept := KeepMembers(members, done, budget, original, e);
            && MembersPrefix(members, kept, budget, original, e)
            && (kept == [] || MembersFit(members, kept, budget, original, e))
    decreases |members| - |done|
  {
    if |done| < |members| {
      var m := members[|done|];
      var next := done + [Member(m.key, Compacted(m.value, Remaining(budget, JsonSize(Object(done), e)), original, e))];
      assert forall i :: 0 <= i < |done| ==> next[..i] == done[..i];
      assert next[..|done|] == done;
      if MembersFit(members, next, budget, original, e) {
        KeptMembers(members, next, budget, original, e);
      }
    }
  }

  ghost predicate ItemsFit(items: seq<Json>, kept: seq<Json>, budget: int, original: nat, e: Encoder) {
    |kept| <= |items| && JsonSize(Array(kept + [Object([Omission(original, |items| - |kept|)])]), e) <= budget
  }

  ghost predicate ItemsPrefix(items: seq<Json>, kept: seq<Json>, budget: int, original: nat, e: Encoder) {
    && |kept| <= |items|
    && forall i :: 0 <= i < |kept| ==>
                     kept[i] == Compacted(items[i], Remaining(budget, JsonSize(Array(kept[..i]), e)), original, e)
  }

  lemma {:induction false} KeptItems(items: seq<Json>, done: seq<Json>, budget: int, original: nat, e: Encoder)
    requires ItemsPrefix(items, done, budget, original, e)
    requires done == [] || ItemsFit(items, done, budget, original, e)
    ensures var kept := KeepItems(items, done, budget, original, e);
            && ItemsPrefix(items, kept, budget, original, e)
            && (kept == [] || ItemsFit(items, kept, budget, original, e))
    decreases |items| - |done|
  {
    if |done| < |items| {
      var next := done + [Compacted(items[|done|], Remaining(budget, JsonSize(Array(done), e)), original, e)];
      assert forall i :: 0 <= i < |done| ==> next[..i] == done[..i];
      assert next[..|done|] == done;
      if ItemsFit(items, next, budget, original, e) {
        KeptItems(items, next, budget, original, e);
      }
    }
  }

  /** Keeping stops only where one more child would overflow. */
  lemma {:induction false} MembersMaximal(members: seq<Member>, done: seq<Member>, budget: int, original: nat, e: Encoder)
    requires |done| <= |members|
    ensures var kept := KeepMembers(members, done, budget, original, e);
            |kept| < |members| ==>
              var m := members[|kept|];
              var next := kept + [Member(m.key, Compacted(m.value, Remaining(budget, JsonSize(Object(kept), e)), original, e))];
              !MembersFit(members, next, budget, original, e)
    decreases |members| - |done|
  {
    if |done| < |members| {
      var m := members[|done|];
      var next := done + [Member(m.key, Compacted(m.value, Remaining(budget, JsonSize(Object(done), e)), original, e))];
      if MembersFit(members, next, budget, original, e) {
        MembersMaximal(members, next, budget, original, e);
      }
    }
  }

  lemma {:induction false} ItemsMaximal(items: seq<Json>, done: seq<Json>, budget: int, original: nat, e: Encoder)
    requires |done| <= |items|
    ensures var kept := KeepItems(items, done, budget, original, e);
            |kept| < |items| ==>
              var next := kept + [Compacted(items[|kept|], Remaining(budget, JsonSize(Array(kept), e)), original, e)];
              !ItemsFit(items, next, budget, original, e)
    decreases |items| - |done|
  {
    if |done| < |items| {
      var next := done + [Compacted(items[|done|], Remaining(budget, JsonSize(Array(done), e)), original, e)];
      if ItemsFit(items, next, budget, original, e) {
        ItemsMaximal(items, next, budget, original, e);
      }
    }
  }

  /** A compacted dictionary keeps a key-order prefix of its members and says how many it left
      out; when it keeps any, it fits. */
  lemma ObjectFits(members: seq<Member>, budget: int, original: nat, e: Encoder)
    ensures var kept := KeepMembers(members, [], budget, original, e);
            && MembersPrefix(members, kept, budget, original, e)
            && Compacted(Object(members), budget, original, e) == Object(kept + [Omission(original, |members| - |kept|)])
            && (kept != [] ==> JsonSize(Compacted(Object(members), budget, original, e), e) <= budget)
  {
    KeptMembers(members, [], budget, original, e);
  }

  /** The same of a list. */
  lemma ArrayFits(items: seq<Json>, budget: int, original: nat, e: Encoder)
    ensures var kept := KeepItems(items, [], budget, original, e);
            && ItemsPrefix(items, kept, budget, original, e)
            && Compacted(Array(items), budget, original, e) == Array(kept + [Object([Omission(original, |items| - |kept|)])])
            && (kept != [] ==> JsonSize(Compacted(Array(items), budget, original, e), e) <= budget)
  {
    KeptItems(items, [], budget, original, e);
  }

  // ---------------------------------------------------------------- what sizes measure

  /** The text of a value: how a string is quoted, and the literal of a number of bytes. */
  datatype Writer = Writer(quote: string -> string, literal: nat -> string)

  ghost predicate Measures(e: Encoder, w: Writer) {
    && (forall t: string {:trigger w.quote(t)} :: |w.quote(t)| == e.quoted(t))
    && (forall b: nat {:trigger w.literal(b)} :: |w.literal(b)| == b)
  }

  function Decimal(n: nat): string {
    if n < 10 then [n as char + '0'] else Decimal(n / 10) + [(n % 10) as char + '0']
  }

  function Joined(parts: seq<string>): string {
    if parts == [] then "" else if |parts| == 1 then parts[0] else parts[0] + "," + Joined(parts[1..])
  }

  /** Compact JSON text, without white space. */
  function Render(v: Json, w: Writer): string
    decreases v
  {
    match v
    case Number(n) => Decimal(n)
    case Literal(b) => w.literal(b)
    case Text(t) => w.quote(t)
    case Array(items) => "[" + Joined(ItemTexts(items, w)) + "]"
    case Object(members) => "{" + Joined(MemberTexts(members, w)) + "}"
  }

  function ItemTexts(items: seq<Json>, w: Writer): seq<string>
    decreases items
  {
    if items == [] then [] else [Render(items[0], w)] + ItemTexts(items[1..], w)
  }

  function MemberTexts(members: seq<Member>, w: Writer): seq<string>
    decreases members
  {
    if members == [] then [] else
      [w.quote(members[0].key) + ":" + Render(members[0].value, w)] + MemberTexts(members[1..], w)
  }

  function Lengths(parts: seq<string>): nat {
    if parts == [] then 0 else |parts[0]| + Lengths(parts[1..])
  }

  lemma {:induction false} JoinedLength(parts: seq<string>)
    ensures |Joined(parts)| == Lengths(parts) + Commas(|parts|)
  {
    if |parts| == 1 {
      assert parts[1..] == [];
    } else if parts != [] {
      JoinedLength(parts[1..]);
    }
  }

  lemma {:induction false} DecimalLength(n: nat)
    ensures |Decimal(n)| == Digits(n)
  {
    if n >= 10 {
      DecimalLength(n / 10);
    }
  }

  /** The size of a value is the length of its text. */
  lemma {:induction false} SizeIsLength(v: Json, e: Encoder, w: Writer)
    requires Measures(e, w)
    ensures JsonSize(v, e) == |Render(v, w)|
    decreases v
  {
    match v {
      case Number(n) => DecimalLength(n);
      case Literal(_) =>
      case Text(_) =>
      case Array(items) =>
        ItemLengths(items, e, w);
        JoinedLength(ItemTexts(items, w));
      case Object(members) =>
        MemberLengths(members, e, w);
        JoinedLength(MemberTexts(members, w));
    }
  }

  lemma {:induction false} ItemLengths(items: seq<Json>, e: Encoder, w: Writer)
    requires Measures(e, w)
    ensures |ItemTexts(items, w)| == |items| && Lengths(ItemTexts(items, w)) == ItemsSize(items, e)
    decreases items
  {
    if items != [] {
      SizeIsLength(items[0], e, w);
      ItemLengths(items[1..], e, w);
    }
  }

  lemma {:induction false} MemberLengths(members: seq<Member>, e: Encoder, w: Writer)
    requires Measures(e, w)
    ensures |MemberTexts(members, w)| == |members| && Lengths(MemberTexts(members, w)) == MembersSize(members, e)
    decreases members
  {
    if members != [] {
      SizeIsLength(members[0].value, e, w);
      MemberLengths(members[1..], e, w);
    }
  }

  // ---------------------------------------------------------------- what compaction preserves

  /** The last member says how many children were left out. */
  ghost predicate Owns(last: Member, original: nat, omitted: nat) {
    last == Member("_truncation", Object([Member("truncated", Literal(4)), Member("original_bytes", Number(original)),
                                          Member("omitted_items", Number(omitted))]))
  }

  lemma OmissionOwns(original: nat, omitted: nat)
    ensures Owns(Omission(original, omitted), original, omitted)
  {
    assert MarkerMembers(original) + [Member("omitted_items", Number(omitted))] ==
           [Member("truncated", Literal(4)), Member("original_bytes", Number(original)), Member("omitted_items", Number(omitted))];
  }

  /** `r` is a reduced form of `v`: scalars are unchanged, a text is cut and says its length, and
      a dictionary or list has the reduced forms of its first children, in order and under their
      keys, and the number of the others. */
  ghost predicate Reduces(v: Json, r: Json, original: nat, e: Encoder)
    decreases v
  {
    match v
    case Number(_) => r == v
    case Literal(_) => r == v
    case Text(t) => exists n: nat :: CutTo(t, n, r, e)
    case Object(members) => r.Object? && ReducesMembers(members, r.members, original, e)
    case Array(items) => r.Array? && ReducesItems(items, r.items, original, e)
  }

  ghost predicate CutTo(t: string, n: nat, r: Json, e: Encoder) {
    r == Object([Member("_truncated_text", Text(e.cut(t, n))), Member("original_chars", Number(|t|))])
  }

  ghost predicate ReducesMembers(members: seq<Member>, rs: seq<Member>, original: nat, e: Encoder)
    decreases members
  {
    && 1 <= |rs| <= |members| + 1
    && Owns(rs[|rs| - 1], original, |members| - (|rs| - 1))
    && forall i :: 0 <= i < |rs| - 1 ==> rs[i].key == members[i].key && Reduces(members[i].value, rs[i].value, original, e)
  }

  ghost predicate ReducesItems(items: seq<Json>, rs: seq<Json>, original: nat, e: Encoder)
    decreases items
  {
    && 1 <= |rs| <= |items| + 1
    && rs[|rs| - 1].Object? && |rs[|rs| - 1].members| == 1
    && Owns(rs[|rs| - 1].members[0], original, |items| - (|rs| - 1))
    && forall i :: 0 <= i < |rs| - 1 ==> Reduces(items[i], rs[i], original, e)
  }

  /** Whatever the budget, compaction reduces a value and nothing else, at every depth. */
  lemma {:induction false} CompactionReduces(v: Json, budget: int, original: nat, e: Encoder)
    ensures Reduces(v, Compacted(v, budget, original, e), original, e)
    decreases v
  {
    match v {
      case Number(_) =>
      case Literal(_) =>
      case Text(t) =>
        assert CutTo(t, if budget >= 160 then budget - 160 else 0, Compacted(v, budget, original, e), e);
      case Object(members) => MembersReduce(members, budget, original, e);
      case Array(items) => ItemsReduce(items, budget, original, e);
    }
  }

  lemma {:induction false} MembersReduce(members: seq<Member>, budget: int, original: nat, e: Encoder)
    ensures var kept := KeepMembers(members, [], budget, original, e);
            ReducesMembers(members, kept + [Omission(original, |members| - |kept|)], original, e)
    decreases members
  {
    KeptMembers(members, [], budget, original, e);
    var kept := KeepMembers(members, [], budget, original, e);
    OmissionOwns(original, |members| - |kept|);
    var rs := kept + [Omission(original, |members| - |kept|)];
    forall i | 0 <= i < |rs| - 1
      ensures rs[i].key == members[i].key && Reduces(members[i].value, rs[i].value, original, e)
    {
      assert rs[i] == kept[i];
      CompactionReduces(members[i].value, Remaining(budget, JsonSize(Object(kept[..i]), e)), original, e);
    }
  }

  lemma {:induction false} ItemsReduce(items: seq<Json>, budget: int, original: nat, e: Encoder)
    ensures var kept := KeepItems(items, [], budget, original, e);
            ReducesItems(items, kept + [Object([Omission(original, |items| - |kept|)])], original, e)
    decreases items
  {
    KeptItems(items, [], budget, original, e);
    var kept := KeepItems(items, [], budget, original, e);
    OmissionOwns(original, |items| - |kept|);
    var rs := kept + [Object([Omission(original, |items| - |kept|)])];
    forall i | 0 <= i < |rs| - 1
      ensures Reduces(items[i], rs[i], original, e)
    {
      assert rs[i] == kept[i];
      CompactionReduces(items[i], Remaining(budget, JsonSize(Array(kept[..i]), e)), original, e);
    }
  }
}
