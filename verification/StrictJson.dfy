/**
 * The strict decoder for tool-call arguments. A `json.Decoder` hands out tokens; commas and
 * colons never reach the caller, so a document is a token sequence here.
 */
module StrictJson {
  /** A decoded JSON value. `N` is what a number decodes to: its text, or a real. */
  datatype Json<N> =
    | Null
    | Bool(b: bool)
    | Num(n: N)
    | Str(s: string)
    | Arr(items: seq<Json<N>>)
    | Obj(fields: map<string, Json<N>>)

  /** `decoder.UseNumber()` keeps number literals as text. */
  type Value = Json<string>

  datatype Token = ObjectOpen | ObjectClose | ArrayOpen | ArrayClose | Text(s: string) | Number(text: string)
    | Flag(b: bool) | Nil

  /** A JSON document as written: object members are ordered and may repeat a key. */
  datatype Tree =
    | LNull
    | LBool(b: bool)
    | LNum(text: string)
    | LStr(s: string)
    | LArr(items: seq<Tree>)
    | LObj(members: seq<Member>)

  datatype Member = Member(key: string, value: Tree)

  const MAX_DEPTH := 6
  const MAX_NODES := 128
  const MAX_BYTES := 32768
  const MAX_KEY := 128

  // ------------------------------------------------------------------ documents

  function Tokens(t: Tree): seq<Token>
    decreases t, 1
  {
    match t
    case LNull => [Nil]
    case LBool(b) => [Flag(b)]
    case LNum(text) => [Number(text)]
    case LStr(s) => [Text(s)]
    case LArr(items) => [ArrayOpen] + ItemTokens(items) + [ArrayClose]
    case LObj(members) => [ObjectOpen] + MemberTokens(members) + [ObjectClose]
  }

  function ItemTokens(items: seq<Tree>): seq<Token>
    decreases items, 0
  {
    if items == [] then [] else Tokens(items[0]) + ItemTokens(items[1..])
  }

  function MemberTokens(members: seq<Member>): seq<Token>
    decreases members, 0
  {
    if members == [] then [] else [Text(members[0].key)] + Tokens(members[0].value) + MemberTokens(members[1..])
  }

  function Meaning(t: Tree): Value
    decreases t, 1
  {
    match t
    case LNull => Null
    case LBool(b) => Bool(b)
    case LNum(text) => Num(text)
    case LStr(s) => Str(s)
    case LArr(items) => Arr(ItemMeanings(items))
    case LObj(members) => Obj(MemberMeanings(members, map[]))
  }

  function ItemMeanings(items: seq<Tree>): seq<Value>
    decreases items, 0
  {
    if items == [] then [] else [Meaning(items[0])] + ItemMeanings(items[1..])
  }

  function MemberMeanings(members: seq<Member>, acc: map<string, Value>): map<string, Value>
    decreases members, 0
  {
    if members == [] then acc
    else MemberMeanings(members[1..], acc[members[0].key := Meaning(members[0].value)])
  }

  /** Number of values, nesting levels, and bytes of keys and strings. */
  datatype Size = Size(nodes: nat, levels: nat, text: nat)

  const ZERO := Size(0, 0, 0)

  function Plus(a: Size, b: Size): Size {
    Size(a.nodes + b.nodes, if a.levels < b.levels then b.levels else a.levels, a.text + b.text)
  }

  function Around(inner: Size): Size { Size(inner.nodes + 1, inner.levels + 1, inner.text) }

  function Keyed(key: string, s: Size): Size { s.(text := s.text + |key|) }

  function SizeOf(t: Tree): Size
    decreases t, 1
  {
    match t
    case LStr(s) => Size(1, 1, |s|)
    case LArr(items) => Around(ItemSizes(items))
    case LObj(members) => Around(MemberSizes(members))
    case _ => Size(1, 1, 0)
  }

  function ItemSizes(items: seq<Tree>): Size
    decreases items, 0
  {
    if items == [] then ZERO else Plus(SizeOf(items[0]), ItemSizes(items[1..]))
  }

  function MemberSizes(members: seq<Member>): Size
    decreases members, 0
  {
    if members == [] then ZERO
    else Plus(Keyed(members[0].key, SizeOf(members[0].value)), MemberSizes(members[1..]))
  }

  predicate GoodKey(key: string) { 0 < |key| <= MAX_KEY }

  /** Every key is non-empty, bounded, and unique within its object. */
  predicate WellKeyed(t: Tree)
    decreases t, 1
  {
    match t
    case LArr(items) => forall i :: 0 <= i < |items| ==> WellKeyed(items[i])
    case LObj(members) => WellKeyedMembers(members, {})
    case _ => true
  }

  predicate WellKeyedMembers(members: seq<Member>, seen: set<string>)
    decreases members, 0
  {
    members == [] ||
    (GoodKey(members[0].key) && members[0].key !in seen && WellKeyed(members[0].value) &&
     WellKeyedMembers(members[1..], seen + {members[0].key}))
  }

  /** The bounds that apply to a value starting at `depth` with these budgets left. */
  predicate Fits(s: Size, depth: int, nodes: int, text: int) {
    depth + s.levels <= MAX_DEPTH + 1 && s.nodes <= nodes && s.text <= text
  }

  // ------------------------------------------------------------------ the decoder

  datatype Decoded = Failed | Done(value: Value, rest: seq<Token>, nodes: int, text: int)

  predicate Closes(token: Token) { token.ObjectClose? || token.ArrayClose? }

  function Decode(ts: seq<Token>, depth: int, nodes: int, text: int): (r: Decoded)
    ensures r.Done? ==> |r.rest| < |ts|
    decreases |ts|, 0
  {
    if depth > MAX_DEPTH || nodes <= 0 || ts == [] then Failed
    else
      match ts[0]
      case ObjectOpen => DecodeMembers(ts[1..], depth, nodes - 1, text, map[])
      case ArrayOpen => DecodeItems(ts[1..], depth, nodes - 1, text, [])
      case ObjectClose => Failed
      case ArrayClose => Failed
      case Text(s) => if text < |s| then Failed else Done(Str(s), ts[1..], nodes - 1, text - |s|)
      case Number(n) => Done(Num(n), ts[1..], nodes - 1, text)
      case Flag(b) => Done(Bool(b), ts[1..], nodes - 1, text)
      case Nil => Done(Null, ts[1..], nodes - 1, text)
  }

  function DecodeMembers(ts: seq<Token>, depth: int, nodes: int, text: int, acc: map<string, Value>): (r: Decoded)
    ensures r.Done? ==> |r.rest| < |ts|
    decreases |ts|, 1
  {
    if ts == [] then Failed
    else if Closes(ts[0]) then (if ts[0].ObjectClose? then Done(Obj(acc), ts[1..], nodes, text) else Failed)
    else if !ts[0].Text? || !GoodKey(ts[0].s) || ts[0].s in acc || text < |ts[0].s| then Failed
    else
      var child := Decode(ts[1..], depth + 1, nodes, text - |ts[0].s|);
      if child.Failed? then Failed
      else DecodeMembers(child.rest, depth, child.nodes, child.text, acc[ts[0].s := child.value])
  }

  function DecodeItems(ts: seq<Token>, depth: int, nodes: int, text: int, acc: seq<Value>): (r: Decoded)
    ensures r.Done? ==> |r.rest| < |ts|
    decreases |ts|, 1
  {
    if ts == [] then Failed
    else if Closes(ts[0]) then (if ts[0].ArrayClose? then Done(Arr(acc), ts[1..], nodes, text) else Failed)
    else
      var child := Decode(ts, depth + 1, nodes, text);
      if child.Failed? then Failed
      else DecodeItems(child.rest, depth, child.nodes, child.text, acc + [child.value])
  }

  // ------------------------------------------------------------------ exactness

  /** Completeness: a document within the bounds decodes to its meaning, and the budgets drop
      by exactly its size. */
  lemma {:induction false} DecodeTree(t: Tree, rest: seq<Token>, depth: int, nodes: int, text: int)
    requires WellKeyed(t) && Fits(SizeOf(t), depth, nodes, text)
    ensures Decode(Tokens(t) + rest, depth, nodes, text)
            == Done(Meaning(t), rest, nodes - SizeOf(t).nodes, text - SizeOf(t).text)
    decreases t, 1
  {
    var ts := Tokens(t) + rest;
    match t
    case LArr(items) =>
      assert ts[1..] == ItemTokens(items) + ([ArrayClose] + rest);
      DecodeTreeItems(items, rest, depth, nodes - 1, text, []);
      assert [] + ItemMeanings(items) == ItemMeanings(items);
    case LObj(members) =>
      assert ts[1..] == MemberTokens(members) + ([ObjectClose] + rest);
      var none: map<string, Value> := map[];
      assert none.Keys == {};
      DecodeTreeMembers(members, ts[1..], rest, depth, nodes - 1, text, none);
    case _ =>
      assert ts[1..] == rest;
  }

  lemma {:induction false} DecodeTreeItems(items: seq<Tree>, rest: seq<Token>, depth: int, nodes: int, text: int,
      acc: seq<Value>)
    requires forall i :: 0 <= i < |items| ==> WellKeyed(items[i])
    requires Fits(ItemSizes(items), depth + 1, nodes, text)
    ensures DecodeItems(ItemTokens(items) + ([ArrayClose] + rest), depth, nodes, text, acc)
            == Done(Arr(acc + ItemMeanings(items)), rest, nodes - ItemSizes(items).nodes, text - ItemSizes(items).text)
    decreases items, 0
  {
    var ts := ItemTokens(items) + ([ArrayClose] + rest);
    if items == [] {
      assert ts == [ArrayClose] + rest;
      assert ts[1..] == rest;
      assert acc + ItemMeanings(items) == acc;
    } else {
      var tail := ItemTokens(items[1..]) + ([ArrayClose] + rest);
      assert ts == Tokens(items[0]) + tail;
      FirstTokenOpens(items[0]);
      DecodeTree(items[0], tail, depth + 1, nodes, text);
      var size := SizeOf(items[0]);
      DecodeTreeItems(items[1..], rest, depth, nodes - size.nodes, text - size.text, acc + [Meaning(items[0])]);
      assert acc + [Meaning(items[0])] + ItemMeanings(items[1..]) == acc + ItemMeanings(items);
    }
  }

  lemma FirstTokenOpens(t: Tree)
    ensures |Tokens(t)| > 0 && !Closes(Tokens(t)[0])
  {
  }

  /** One turn of the object loop. */
  lemma MemberStep(key: string, ts: seq<Token>, depth: int, nodes: int, text: int, acc: map<string, Value>,
      child: Decoded)
    requires GoodKey(key) && key !in acc && |key| <= text
    requires child == Decode(ts, depth + 1, nodes, text - |key|) && child.Done?
    ensures DecodeMembers([Text(key)] + ts, depth, nodes, text, acc)
            == DecodeMembers(child.rest, depth, child.nodes, child.text, acc[key := child.value])
  {
    assert ([Text(key)] + ts)[1..] == ts;
  }

  lemma MemberTokensStep(members: seq<Member>, tail: seq<Token>)
    requires members != []
    ensures MemberTokens(members) + tail
            == [Text(members[0].key)] + (Tokens(members[0].value) + (MemberTokens(members[1..]) + tail))
  {
  }

  lemma MemberSizesStep(members: seq<Member>, acc: map<string, Value>)
    requires members != []
    ensures var m, size, tail := members[0], SizeOf(members[0].value), MemberSizes(members[1..]);
            && MemberSizes(members).nodes == size.nodes + tail.nodes
            && MemberSizes(members).text == |m.key| + size.text + tail.text
            && MemberMeanings(members, acc) == MemberMeanings(members[1..], acc[m.key := Meaning(m.value)])
  {
  }

  lemma NoMembers(rest: seq<Token>, depth: int, nodes: int, text: int, acc: map<string, Value>)
    ensures DecodeMembers([ObjectClose] + rest, depth, nodes, text, acc) == Done(Obj(acc), rest, nodes, text)
  {
  }

  lemma {:induction false} DecodeTreeMember(m: Member, ts: seq<Token>, tail: seq<Token>, depth: int, nodes: int,
      text: int, acc: map<string, Value>)
    requires GoodKey(m.key) && m.key !in acc && WellKeyed(m.value) && ts == [Text(m.key)] + (Tokens(m.value) + tail)
    requires Fits(Keyed(m.key, SizeOf(m.value)), depth + 1, nodes, text)
    ensures DecodeMembers(ts, depth, nodes, text, acc)
            == DecodeMembers(tail, depth, nodes - SizeOf(m.value).nodes, text - |m.key| - SizeOf(m.value).text,
                             acc[m.key := Meaning(m.value)])
    decreases m, 2
  {
    var size := SizeOf(m.value);
    DecodeTree(m.value, tail, depth + 1, nodes, text - |m.key|);
    MemberStep(m.key, Tokens(m.value) + tail, depth, nodes, text, acc,
        Done(Meaning(m.value), tail, nodes - size.nodes, text - |m.key| - size.text));
  }

  lemma {:induction false} DecodeTreeMembers(members: seq<Member>, ts: seq<Token>, rest: seq<Token>, depth: int,
      nodes: int, text: int, acc: map<string, Value>)
    requires WellKeyedMembers(members, acc.Keys) && ts == MemberTokens(members) + ([ObjectClose] + rest)
    requires Fits(MemberSizes(members), depth + 1, nodes, text)
    ensures DecodeMembers(ts, depth, nodes, text, acc)
            == Done(Obj(MemberMeanings(members, acc)), rest, nodes - MemberSizes(members).nodes,
                text - MemberSizes(members).text)
    decreases members, 0
  {
    if members == [] {
      assert ts == [ObjectClose] + rest;
      NoMembers(rest, depth, nodes, text, acc);
    } else {
      var m, size := members[0], SizeOf(members[0].value);
      var tail := MemberTokens(members[1..]) + ([ObjectClose] + rest);
      MemberTokensStep(members, [ObjectClose] + rest);
      var acc' := acc[m.key := Meaning(m.value)];
      assert acc'.Keys == acc.Keys + {m.key};
      MemberSizesStep(members, acc);
      DecodeTreeMember(m, ts, tail, depth, nodes, text, acc);
      DecodeTreeMembers(members[1..], tail, rest, depth, nodes - size.nodes, text - |m.key| - size.text, acc');
    }
  }

  /** Soundness: whatever decodes was the text of a document within the bounds. */
  lemma {:induction false} DecodedTree(ts: seq<Token>, depth: int, nodes: int, text: int) returns (t: Tree)
    requires text >= 0 && Decode(ts, depth, nodes, text).Done?
    ensures var r := Decode(ts, depth, nodes, text);
            && ts == Tokens(t) + r.rest && WellKeyed(t) && Fits(SizeOf(t), depth, nodes, text)
            && r.value == Meaning(t) && r.nodes == nodes - SizeOf(t).nodes && r.text == text - SizeOf(t).text
    decreases |ts|, 0
  {
    var r := Decode(ts, depth, nodes, text);
    assert ts == [ts[0]] + ts[1..];
    match ts[0]
    case ObjectOpen =>
      var none: map<string, Value> := map[];
      assert none.Keys == {};
      var members := DecodedMembers(ts[1..], depth, nodes - 1, text, none);
      t := LObj(members);
      Regroup([], [ObjectOpen], MemberTokens(members), [ObjectClose], r.rest);
    case ArrayOpen =>
      var items := DecodedItems(ts[1..], depth, nodes - 1, text, []);
      t := LArr(items);
      Regroup([], [ArrayOpen], ItemTokens(items), [ArrayClose], r.rest);
      assert [] + ItemMeanings(items) == ItemMeanings(items);
    case Text(s) => t := LStr(s);
    case Number(n) => t := LNum(n);
    case Flag(b) => t := LBool(b);
    case Nil => t := LNull;
  }

  lemma {:induction false} DecodedItems(ts: seq<Token>, depth: int, nodes: int, text: int, acc: seq<Value>)
    returns (items: seq<Tree>)
    requires depth <= MAX_DEPTH && nodes >= 0 && text >= 0
    requires DecodeItems(ts, depth, nodes, text, acc).Done?
    ensures var r := DecodeItems(ts, depth, nodes, text, acc);
            && ts == ItemTokens(items) + [ArrayClose] + r.rest
            && (forall i :: 0 <= i < |items| ==> WellKeyed(items[i])) && Fits(ItemSizes(items), depth + 1, nodes, text)
            && r.value == Arr(acc + ItemMeanings(items))
            && r.nodes == nodes - ItemSizes(items).nodes && r.text == text - ItemSizes(items).text
    decreases |ts|, 1
  {
    var r := DecodeItems(ts, depth, nodes, text, acc);
    if Closes(ts[0]) {
      items := [];
      assert ts == [ts[0]] + ts[1..];
      assert acc + ItemMeanings([]) == acc;
    } else {
      var child := Decode(ts, depth + 1, nodes, text);
      var first := DecodedTree(ts, depth + 1, nodes, text);
      var others := DecodedItems(child.rest, depth, child.nodes, child.text, acc + [child.value]);
      items := [first] + others;
      assert items[1..] == others;
      Regroup([], Tokens(first), ItemTokens(others), [ArrayClose], r.rest);
      assert acc + [child.value] + ItemMeanings(others) == acc + ItemMeanings(items);
    }
  }

  lemma Regroup(a: seq<Token>, b: seq<Token>, c: seq<Token>, d: seq<Token>, e: seq<Token>)
    ensures a + (b + (c + d + e)) == a + b + c + d + e
    ensures a == [] ==> b + (c + d + e) == b + c + d + e
  {
  }

  /** A member put in front of others. */
  lemma ConsMember(m: Member, others: seq<Member>, seen: set<string>, acc: map<string, Value>)
    requires GoodKey(m.key) && m.key !in seen && WellKeyed(m.value) && WellKeyedMembers(others, seen + {m.key})
    ensures var members := [m] + others;
            && WellKeyedMembers(members, seen)
            && MemberSizes(members) == Plus(Keyed(m.key, SizeOf(m.value)), MemberSizes(others))
            && MemberMeanings(members, acc) == MemberMeanings(others, acc[m.key := Meaning(m.value)])
            && MemberTokens(members) == [Text(m.key)] + Tokens(m.value) + MemberTokens(others)
  {
  }

  /** A turn of the object loop that did not fail. */
  lemma MemberInversion(ts: seq<Token>, depth: int, nodes: int, text: int, acc: map<string, Value>)
    requires ts != [] && !Closes(ts[0]) && DecodeMembers(ts, depth, nodes, text, acc).Done?
    ensures ts[0].Text? && GoodKey(ts[0].s) && ts[0].s !in acc && |ts[0].s| <= text
    ensures var child := Decode(ts[1..], depth + 1, nodes, text - |ts[0].s|);
            && child.Done?
            && DecodeMembers(ts, depth, nodes, text, acc)
               == DecodeMembers(child.rest, depth, child.nodes, child.text, acc[ts[0].s := child.value])
  {
  }

  lemma {:induction false} DecodedMembers(ts: seq<Token>, depth: int, nodes: int, text: int, acc: map<string, Value>)
    returns (members: seq<Member>)
    requires depth <= MAX_DEPTH && nodes >= 0 && text >= 0
    requires DecodeMembers(ts, depth, nodes, text, acc).Done?
    ensures var r := DecodeMembers(ts, depth, nodes, text, acc);
            && ts == MemberTokens(members) + [ObjectClose] + r.rest
            && WellKeyedMembers(members, acc.Keys) && Fits(MemberSizes(members), depth + 1, nodes, text)
            && r.value == Obj(MemberMeanings(members, acc))
            && r.nodes == nodes - MemberSizes(members).nodes && r.text == text - MemberSizes(members).text
    decreases |ts|, 1
  {
    var r := DecodeMembers(ts, depth, nodes, text, acc);
    assert ts == [ts[0]] + ts[1..];
    if Closes(ts[0]) {
      members := [];
    } else {
      MemberInversion(ts, depth, nodes, text, acc);
      var key := ts[0].s;
      var child := Decode(ts[1..], depth + 1, nodes, text - |key|);
      var first := DecodedTree(ts[1..], depth + 1, nodes, text - |key|);
      var acc' := acc[key := child.value];
      assert acc'.Keys == acc.Keys + {key};
      var others := DecodedMembers(child.rest, depth, child.nodes, child.text, acc');
      ConsMember(Member(key, first), others, acc.Keys, acc);
      members := [Member(key, first)] + others;
      Regroup([Text(key)], Tokens(first), MemberTokens(others), [ObjectClose], r.rest);
    }
  }

  /** The decoder accepts a token sequence exactly when it is the text of one document with
      unique bounded keys within the depth, node and text bounds, and returns its meaning. */
  lemma DecodeIsExact(ts: seq<Token>, v: Value)
    ensures (exists r :: r == Decode(ts, 0, MAX_NODES, MAX_BYTES) && r.Done? && r.value == v && r.rest == [])
            <==>
            exists t ::
              ts == Tokens(t) && WellKeyed(t) && Fits(SizeOf(t), 0, MAX_NODES, MAX_BYTES) && v == Meaning(t)
  {
    var r := Decode(ts, 0, MAX_NODES, MAX_BYTES);
    if r.Done? && r.value == v && r.rest == [] {
      var t := DecodedTree(ts, 0, MAX_NODES, MAX_BYTES);
      assert ts == Tokens(t) + [] == Tokens(t);
    }
    if t :| ts == Tokens(t) && WellKeyed(t) && Fits(SizeOf(t), 0, MAX_NODES, MAX_BYTES) && v == Meaning(t) {
      DecodeTree(t, [], 0, MAX_NODES, MAX_BYTES);
      assert Tokens(t) + [] == ts;
    }
  }
}
