/**
 * `validateToolArguments`: decode strictly, scan, re-encode with sorted keys. The printer is
 * `json.Marshal`, whose output is a document with its keys in byte order.
 */
module ToolArguments {
  import opened Basics
  import opened ByteOrder
  import opened StrictJson

  // ------------------------------------------------------------------ the printer

  ghost predicate Part(m: map<string, Value>, whole: map<string, Value>) {
    forall k <- m :: k in whole && m[k] == whole[k]
  }

  /** What `json.Marshal` prints for a decoded value. */
  ghost function Canonical(v: Value): Tree
    decreases v, 1, 0
  {
    match v
    case Null => LNull
    case Bool(b) => LBool(b)
    case Num(n) => LNum(n)
    case Str(s) => LStr(s)
    case Arr(items) => LArr(CanonicalItems(items))
    case Obj(fields) => LObj(CanonicalMembers(v, fields))
  }

  ghost function CanonicalItems(items: seq<Value>): seq<Tree>
    decreases items, 0, 0
  {
    if items == [] then [] else [Canonical(items[0])] + CanonicalItems(items[1..])
  }

  /** The members `m` of the object `v`, in key order. */
  ghost function CanonicalMembers(v: Value, m: map<string, Value>): seq<Member>
    requires v.Obj? && Part(m, v.fields)
    decreases v, 0, |m|
  {
    if m == map[] then []
    else
      var k := Least(m.Keys);
      [Member(k, Canonical(v.fields[k]))] + CanonicalMembers(v, m - {k})
  }

  // ------------------------------------------------------------------ printing keeps the value

  lemma {:induction false} PrintedMeaning(v: Value)
    ensures Meaning(Canonical(v)) == v
    decreases v, 1, 0
  {
    match v
    case Arr(items) => PrintedItems(items);
    case Obj(fields) =>
      PrintedMembers(v, fields, map[]);
      assert MemberMeanings(CanonicalMembers(v, fields), map[]) == fields;
    case _ =>
  }

  lemma {:induction false} PrintedItems(items: seq<Value>)
    ensures ItemMeanings(CanonicalItems(items)) == items
    decreases items, 0, 0
  {
    if items != [] {
      PrintedMeaning(items[0]);
      PrintedItems(items[1..]);
      assert ([Canonical(items[0])] + CanonicalItems(items[1..]))[1..] == CanonicalItems(items[1..]);
    }
  }

  lemma MoveKey(acc: map<string, Value>, m: map<string, Value>, k: string)
    requires k in m
    ensures acc[k := m[k]] + (m - {k}) == acc + m
  {
  }

  /** The printer's next member, in front of the rest. */
  lemma NextMember(v: Value, m: map<string, Value>)
    requires v.Obj? && Part(m, v.fields) && m != map[]
    ensures var k := Least(m.Keys); var printed := CanonicalMembers(v, m);
            && printed != [] && printed[0] == Member(k, Canonical(v.fields[k]))
            && printed[1..] == CanonicalMembers(v, m - {k})
  {
  }

  /** Members are printed in byte order of their keys, each key of the object once. */
  lemma {:induction false} PrintedInOrder(v: Value, m: map<string, Value>)
    requires v.Obj? && Part(m, v.fields)
    ensures var printed := CanonicalMembers(v, m);
            && (forall i :: 0 <= i < |printed| ==> printed[i].key in m)
            && (forall i, j :: 0 <= i < j < |printed| ==> Below(printed[i].key, printed[j].key))
    decreases |m|
  {
    if m != map[] {
      var k := Least(m.Keys);
      var tail := CanonicalMembers(v, m - {k});
      PrintedInOrder(v, m - {k});
      NextMember(v, m);
      assert forall i :: 0 <= i < |tail| ==> Below(k, tail[i].key);
      assert CanonicalMembers(v, m) == [Member(k, Canonical(v.fields[k]))] + tail;
    }
  }

  lemma {:induction false} PrintedMembers(v: Value, m: map<string, Value>, acc: map<string, Value>)
    requires v.Obj? && Part(m, v.fields)
    ensures MemberMeanings(CanonicalMembers(v, m), acc) == acc + m
    decreases v, 0, |m|
  {
    if m == map[] {
      assert acc + m == acc;
    } else {
      var k := Least(m.Keys);
      PrintedMeaning(v.fields[k]);
      PrintedMembers(v, m - {k}, acc[k := m[k]]);
      NextMember(v, m);
      MoveKey(acc, m, k);
    }
  }

  // ------------------------------------------------------------------ printing keeps the size

  ghost function FieldSize(v: Value, k: string): Size
    requires v.Obj? && k in v.fields
  {
    Keyed(k, SizeOf(Canonical(v.fields[k])))
  }

  ghost function FieldSizes(v: Value, m: map<string, Value>): Size
    requires v.Obj? && Part(m, v.fields)
  {
    MemberSizes(CanonicalMembers(v, m))
  }

  lemma FieldSizesLeast(v: Value, m: map<string, Value>)
    requires v.Obj? && Part(m, v.fields) && m != map[]
    ensures FieldSizes(v, m) == Plus(FieldSize(v, Least(m.Keys)), FieldSizes(v, m - {Least(m.Keys)}))
  {
  }

  lemma LeastOfOthers(m: map<string, Value>, k: string)
    requires k in m && k != Least(m.Keys)
    ensures var l := Least(m.Keys);
            (m - {k}) != map[] && Least((m - {k}).Keys) == l && m - {k} - {l} == m - {l} - {k}
  {
    var l := Least(m.Keys);
    assert l in m - {k};
    LeastIsUnique(l, Least((m - {k}).Keys), (m - {k}).Keys);
  }

  /** The total does not depend on the order in which members are taken. */
  lemma {:induction false} FieldSizesAny(v: Value, m: map<string, Value>, k: string)
    requires v.Obj? && Part(m, v.fields) && k in m
    ensures FieldSizes(v, m) == Plus(FieldSize(v, k), FieldSizes(v, m - {k}))
    decreases |m|
  {
    FieldSizesLeast(v, m);
    var l := Least(m.Keys);
    if k != l {
      FieldSizesAny(v, m - {l}, k);
      LeastOfOthers(m, k);
      FieldSizesLeast(v, m - {k});
    }
  }

  lemma {:induction false} MeaningKeeps(members: seq<Member>, acc: map<string, Value>, k: string)
    requires WellKeyedMembers(members, acc.Keys) && k in acc
    ensures k in MemberMeanings(members, acc) && MemberMeanings(members, acc)[k] == acc[k]
    decreases |members|
  {
    if members != [] {
      var acc' := acc[members[0].key := Meaning(members[0].value)];
      assert acc'.Keys == acc.Keys + {members[0].key};
      MeaningKeeps(members[1..], acc', k);
    }
  }

  lemma {:induction false} PrintedSize(t: Tree)
    requires WellKeyed(t)
    ensures SizeOf(Canonical(Meaning(t))) == SizeOf(t)
    decreases t, 1
  {
    match t
    case LArr(items) => PrintedItemSizes(items);
    case LObj(members) =>
      var none: map<string, Value> := map[];
      assert none.Keys == {};
      var v := Meaning(t);
      PrintedMemberSizes(members, none, v);
      assert v.fields - none.Keys == v.fields;
    case _ =>
  }

  lemma {:induction false} PrintedItemSizes(items: seq<Tree>)
    requires forall i :: 0 <= i < |items| ==> WellKeyed(items[i])
    ensures ItemSizes(CanonicalItems(ItemMeanings(items))) == ItemSizes(items)
    decreases items, 0
  {
    if items != [] {
      PrintedSize(items[0]);
      PrintedItemSizes(items[1..]);
      var values := ItemMeanings(items);
      assert values[1..] == ItemMeanings(items[1..]);
      assert CanonicalItems(values)[1..] == CanonicalItems(values[1..]);
    }
  }

  /** `v` is the object whose members still to come are `members`. */
  lemma {:induction false} PrintedMemberSizes(members: seq<Member>, acc: map<string, Value>, v: Value)
    requires WellKeyedMembers(members, acc.Keys) && v == Obj(MemberMeanings(members, acc))
    ensures FieldSizes(v, v.fields - acc.Keys) == MemberSizes(members)
    decreases members, 0
  {
    if members == [] {
      assert v.fields - acc.Keys == map[];
    } else {
      var k := members[0].key;
      var acc' := acc[k := Meaning(members[0].value)];
      assert acc'.Keys == acc.Keys + {k};
      PrintedSize(members[0].value);
      PrintedMemberSizes(members[1..], acc', v);
      MeaningKeeps(members[1..], acc', k);
      FieldSizesAny(v, v.fields - acc.Keys, k);
      assert v.fields - acc.Keys - {k} == v.fields - acc'.Keys;
    }
  }

  // ------------------------------------------------------------------ printing keeps the keys

  predicate GoodKeys(v: Value) {
    match v
    case Arr(items) => forall i :: 0 <= i < |items| ==> GoodKeys(items[i])
    case Obj(fields) => forall k <- fields :: GoodKey(k) && GoodKeys(fields[k])
    case _ => true
  }

  lemma {:induction false} MeaningHasGoodKeys(t: Tree)
    requires WellKeyed(t)
    ensures GoodKeys(Meaning(t))
    decreases t, 1
  {
    match t
    case LArr(items) => ItemsHaveGoodKeys(items);
    case LObj(members) =>
      var none: map<string, Value> := map[];
      assert none.Keys == {};
      MembersHaveGoodKeys(members, none);
    case _ =>
  }

  lemma {:induction false} ItemsHaveGoodKeys(items: seq<Tree>)
    requires forall i :: 0 <= i < |items| ==> WellKeyed(items[i])
    ensures GoodKeys(Arr(ItemMeanings(items)))
    decreases items, 0
  {
    if items != [] {
      MeaningHasGoodKeys(items[0]);
      ItemsHaveGoodKeys(items[1..]);
      var rest := ItemMeanings(items[1..]);
      assert GoodKeys(Arr(rest));
      forall i | 0 <= i < |rest| + 1 ensures GoodKeys(ItemMeanings(items)[i]) {
        if i > 0 { assert ItemMeanings(items)[i] == rest[i - 1]; }
      }
    }
  }

  lemma {:induction false} MembersHaveGoodKeys(members: seq<Member>, acc: map<string, Value>)
    requires WellKeyedMembers(members, acc.Keys) && GoodKeys(Obj(acc))
    ensures GoodKeys(Obj(MemberMeanings(members, acc)))
    decreases members, 0
  {
    if members != [] {
      MeaningHasGoodKeys(members[0].value);
      var acc' := acc[members[0].key := Meaning(members[0].value)];
      assert acc'.Keys == acc.Keys + {members[0].key};
      MembersHaveGoodKeys(members[1..], acc');
    }
  }

  lemma {:induction false} PrintedKeys(v: Value)
    requires GoodKeys(v)
    ensures WellKeyed(Canonical(v))
    decreases v, 1, 0
  {
    match v
    case Arr(items) => PrintedItemKeys(items);
    case Obj(fields) => PrintedMemberKeys(v, fields, {});
    case _ =>
  }

  lemma {:induction false} PrintedItemKeys(items: seq<Value>)
    requires forall i :: 0 <= i < |items| ==> GoodKeys(items[i])
    ensures forall i :: 0 <= i < |CanonicalItems(items)| ==> WellKeyed(CanonicalItems(items)[i])
    decreases items, 0, 0
  {
    if items != [] {
      PrintedKeys(items[0]);
      PrintedItemKeys(items[1..]);
      var rest := CanonicalItems(items[1..]);
      forall i | 0 <= i < |rest| + 1 ensures WellKeyed(CanonicalItems(items)[i]) {
        if i > 0 { assert CanonicalItems(items)[i] == rest[i - 1]; }
      }
    }
  }

  lemma {:induction false} PrintedMemberKeys(v: Value, m: map<string, Value>, seen: set<string>)
    requires v.Obj? && Part(m, v.fields) && GoodKeys(v) && seen !! m.Keys
    ensures WellKeyedMembers(CanonicalMembers(v, m), seen)
    decreases v, 0, |m|
  {
    if m != map[] {
      var k := Least(m.Keys);
      PrintedKeys(v.fields[k]);
      PrintedMemberKeys(v, m - {k}, seen + {k});
      NextMember(v, m);
    }
  }

  // ------------------------------------------------------------------ validation

  /** The scans and the byte length of a rendering are the caller's: `secret` is
      `containsSecretKey`, `leak` the credential pattern, `size` the encoded length. */
  ghost function Validate(ts: seq<Token>, secret: Value -> bool, leak: seq<Token> -> bool,
      size: seq<Token> -> nat): (r: Result<seq<Token>>)
  {
    var d := Decode(ts, 0, MAX_NODES, MAX_BYTES);
    if d.Failed? || !d.value.Obj? || d.rest != [] || secret(d.value) then Err
    else
      var printed := Tokens(Canonical(d.value));
      if size(printed) > MAX_BYTES || leak(printed) then Err else Ok(printed)
  }

  /** Arguments are accepted exactly if they are one object document with unique bounded keys within
      the bounds of 6 levels below the root, 128 values and 32768 bytes, free of secrets, whose canonical text is
      itself bounded and free of credentials; that text is what is forwarded. */
  lemma ValidateIsExact(
      ts: seq<Token>, secret: Value -> bool, leak: seq<Token> -> bool, size: seq<Token> -> nat, out: seq<Token>)
    ensures Validate(ts, secret, leak, size) == Ok(out) <==>
            exists members: seq<Member> ::
              var t := LObj(members);
              && ts == Tokens(t) && WellKeyed(t)
              && SizeOf(t).levels <= 7 && SizeOf(t).nodes <= 128 && SizeOf(t).text <= 32768
              && !secret(Meaning(t)) && out == Tokens(Canonical(Meaning(t))) && size(out) <= 32768 && !leak(out)
  {
    var d := Decode(ts, 0, MAX_NODES, MAX_BYTES);
    if Validate(ts, secret, leak, size) == Ok(out) {
      var t := DecodedTree(ts, 0, MAX_NODES, MAX_BYTES);
      assert Tokens(t) + [] == Tokens(t);
      assert t.LObj? by { ObjectMeansObject(t); }
      assert t == LObj(t.members);
    }
    if members: seq<Member> :|
      && ts == Tokens(LObj(members)) && WellKeyed(LObj(members))
      && SizeOf(LObj(members)).levels <= 7 && SizeOf(LObj(members)).nodes <= 128 && SizeOf(LObj(members)).text <= 32768
      && !secret(Meaning(LObj(members))) && out == Tokens(Canonical(Meaning(LObj(members)))) && size(out) <= 32768
      && !leak(out)
    {
      DecodeTree(LObj(members), [], 0, MAX_NODES, MAX_BYTES);
      assert Tokens(LObj(members)) + [] == Tokens(LObj(members));
    }
  }

  lemma ObjectMeansObject(t: Tree)
    ensures Meaning(t).Obj? <==> t.LObj?
  {
  }

  /** The printer undoes the decoder: whatever decoded prints to text that decodes to the same value. */
  lemma PrintedDecodes(ts: seq<Token>)
    requires Decode(ts, 0, MAX_NODES, MAX_BYTES).Done? && Decode(ts, 0, MAX_NODES, MAX_BYTES).rest == []
    ensures var v := Decode(ts, 0, MAX_NODES, MAX_BYTES).value;
            var again := Decode(Tokens(Canonical(v)), 0, MAX_NODES, MAX_BYTES);
            again.Done? && again.value == v && again.rest == []
            && again.nodes == Decode(ts, 0, MAX_NODES, MAX_BYTES).nodes
            && again.text == Decode(ts, 0, MAX_NODES, MAX_BYTES).text
  {
    var t := DecodedTree(ts, 0, MAX_NODES, MAX_BYTES);
    var v := Meaning(t);
    PrintedMeaning(v);
    PrintedSize(t);
    MeaningHasGoodKeys(t);
    PrintedKeys(v);
    DecodeTree(Canonical(v), [], 0, MAX_NODES, MAX_BYTES);
    assert Tokens(Canonical(v)) + [] == Tokens(Canonical(v));
  }

  /** Validating canonical output again accepts it and yields the same canonical output. */
  lemma ValidateIsIdempotent(ts: seq<Token>, secret: Value -> bool, leak: seq<Token> -> bool, size: seq<Token> -> nat)
    requires Validate(ts, secret, leak, size).Ok?
    ensures var canonical := Validate(ts, secret, leak, size).value;
            Validate(canonical, secret, leak, size) == Ok(canonical) && size(canonical) <= MAX_BYTES
  {
    PrintedDecodes(ts);
  }

  /** Two spellings of the same object, whatever their member order, are forwarded identically. */
  lemma SpellingIsForgotten(a: Tree, b: Tree, secret: Value -> bool, leak: seq<Token> -> bool, size: seq<Token> -> nat)
    requires WellKeyed(a) && Fits(SizeOf(a), 0, MAX_NODES, MAX_BYTES)
    requires WellKeyed(b) && Fits(SizeOf(b), 0, MAX_NODES, MAX_BYTES) && Meaning(a) == Meaning(b)
    ensures Validate(Tokens(a), secret, leak, size) == Validate(Tokens(b), secret, leak, size)
  {
    DecodeTree(a, [], 0, MAX_NODES, MAX_BYTES);
    DecodeTree(b, [], 0, MAX_NODES, MAX_BYTES);
    assert Tokens(a) + [] == Tokens(a) && Tokens(b) + [] == Tokens(b);
  }

  // ------------------------------------------------------------------ the code

  /** `json.Decoder` over the argument string, and the two budgets the recursion shares. */
  class Decoder {
    const tokens: seq<Token>
    var pos: nat
    var nodes: int
    var text: int

    ghost predicate Valid() reads this { pos <= |tokens| }

    ghost function Rest(): seq<Token> reads this requires Valid() { tokens[pos..] }

    constructor (tokens: seq<Token>)
      ensures Valid() && Rest() == tokens && nodes == MAX_NODES && text == MAX_BYTES
    {
      this.tokens := tokens;
      pos, nodes, text := 0, MAX_NODES, MAX_BYTES;
    }

    method Next() returns (r: Result<Token>)
      requires Valid()
      modifies this`pos
      ensures Valid()
      ensures old(Rest()) == [] ==> r.Err? && Rest() == []
      ensures old(Rest()) != [] ==> r == Ok(old(Rest())[0]) && Rest() == old(Rest())[1..]
    {
      if pos == |tokens| { return Err; }
      pos := pos + 1;
      return Ok(tokens[pos - 1]);
    }

    method More() returns (more: bool)
      requires Valid()
      ensures more <==> Rest() != [] && !Closes(Rest()[0])
    {
      return pos < |tokens| && !tokens[pos].ObjectClose? && !tokens[pos].ArrayClose?;
    }

    ghost predicate Agrees(expected: Decoded, r: Result<Value>) reads this {
      if expected.Failed? then r.Err?
      else
        && Valid() && r == Ok(expected.value) && Rest() == expected.rest
        && nodes == expected.nodes && text == expected.text
    }

    /** `decodeStrictJSONValue` */
    method DecodeValue(depth: int) returns (r: Result<Value>)
      requires Valid()
      modifies this
      ensures Agrees(Decode(old(Rest()), depth, old(nodes), old(text)), r)
      decreases |Rest()|, 0
    {
      if depth > MAX_DEPTH || nodes <= 0 { return Err; }
      nodes := nodes - 1;
      var token := Next();
      if token.Err? { return Err; }
      match token.value
      case ObjectOpen => r := DecodeObject(depth);
      case ArrayOpen => r := DecodeArray(depth);
      case ObjectClose => return Err;
      case ArrayClose => return Err;
      case Text(s) =>
        text := text - |s|;
        if text < 0 { return Err; }
        return Ok(Str(s));
      case Number(n) => return Ok(Num(n));
      case Flag(b) => return Ok(Bool(b));
      case Nil => return Ok(Null);
    }

    method DecodeObject(depth: int) returns (r: Result<Value>)
      requires Valid()
      modifies this
      ensures Agrees(DecodeMembers(old(Rest()), depth, old(nodes), old(text), map[]), r)
      decreases |Rest()|, 1
    {
      var fields: map<string, Value> := map[];
      ghost var expected := DecodeMembers(Rest(), depth, nodes, text, fields);
      var more := More();
      while more
        invariant Valid() && |Rest()| <= old(|Rest()|)
        invariant more <==> Rest() != [] && !Closes(Rest()[0])
        invariant expected == DecodeMembers(Rest(), depth, nodes, text, fields)
        decreases |Rest()|
      {
        var key := Next();
        if key.Err? || !key.value.Text? || |key.value.s| == 0 || |key.value.s| > MAX_KEY { return Err; }
        if key.value.s in fields { return Err; }
        text := text - |key.value.s|;
        if text < 0 { return Err; }
        var child := DecodeValue(depth + 1);
        if child.Err? { return Err; }
        fields := fields[key.value.s := child.value];
        more := More();
      }
      var closing := Next();
      if closing.Err? || !closing.value.ObjectClose? { return Err; }
      return Ok(Obj(fields));
    }

    method DecodeArray(depth: int) returns (r: Result<Value>)
      requires Valid()
      modifies this
      ensures Agrees(DecodeItems(old(Rest()), depth, old(nodes), old(text), []), r)
      decreases |Rest()|, 1
    {
      var values: seq<Value> := [];
      ghost var expected := DecodeItems(Rest(), depth, nodes, text, values);
      var more := More();
      while more
        invariant Valid() && |Rest()| <= old(|Rest()|)
        invariant more <==> Rest() != [] && !Closes(Rest()[0])
        invariant expected == DecodeItems(Rest(), depth, nodes, text, values)
        decreases |Rest()|
      {
        var child := DecodeValue(depth + 1);
        if child.Err? { return Err; }
        values := values + [child.value];
        more := More();
      }
      var closing := Next();
      if closing.Err? || !closing.value.ArrayClose? { return Err; }
      return Ok(Arr(values));
    }
  }
}
