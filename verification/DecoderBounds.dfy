/**
 * The decoder's bounds, measured on documents themselves rather than by the sizes they are stated
 * with: text by the tokens, depth by nested arrays, values by wide arrays, keys one by one.
 */
module DecoderBounds {
  import opened StrictJson

  /** The bytes of all keys and strings in a token sequence. */
  function TextBytes(ts: seq<Token>): nat {
    if ts == [] then 0 else (if ts[0].Text? then |ts[0].s| else 0) + TextBytes(ts[1..])
  }

  lemma {:induction false} TextBytesAppend(a: seq<Token>, b: seq<Token>)
    ensures TextBytes(a + b) == TextBytes(a) + TextBytes(b)
    decreases |a|
  {
    if a == [] {
      assert a + b == b;
    } else {
      TextBytesAppend(a[1..], b);
      assert (a + b)[1..] == a[1..] + b;
    }
  }

  /** The text budget is charged for every key and string of the document. */
  lemma {:induction false} TextIsCounted(t: Tree)
    ensures SizeOf(t).text == TextBytes(Tokens(t))
    decreases t, 1
  {
    match t
    case LArr(items) =>
      ItemTextIsCounted(items);
      TextBytesAppend([ArrayOpen] + ItemTokens(items), [ArrayClose]);
      TextBytesAppend([ArrayOpen], ItemTokens(items));
    case LObj(members) =>
      MemberTextIsCounted(members);
      TextBytesAppend([ObjectOpen] + MemberTokens(members), [ObjectClose]);
      TextBytesAppend([ObjectOpen], MemberTokens(members));
    case _ =>
  }

  lemma {:induction false} ItemTextIsCounted(items: seq<Tree>)
    ensures ItemSizes(items).text == TextBytes(ItemTokens(items))
    decreases items, 0
  {
    if items != [] {
      TextIsCounted(items[0]);
      ItemTextIsCounted(items[1..]);
      TextBytesAppend(Tokens(items[0]), ItemTokens(items[1..]));
    }
  }

  lemma {:induction false} MemberTextIsCounted(members: seq<Member>)
    ensures MemberSizes(members).text == TextBytes(MemberTokens(members))
    decreases members, 0
  {
    if members != [] {
      var m := members[0];
      TextIsCounted(m.value);
      MemberTextIsCounted(members[1..]);
      TextBytesAppend([Text(m.key)] + Tokens(m.value), MemberTokens(members[1..]));
      TextBytesAppend([Text(m.key)], Tokens(m.value));
    }
  }

  /** An object is well keyed exactly if its keys have 1 to 128 bytes and differ, and its values are. */
  lemma KeysAreBounded(members: seq<Member>)
    ensures WellKeyed(LObj(members)) <==>
              && (forall i :: 0 <= i < |members| ==> 1 <= |members[i].key| <= 128 && WellKeyed(members[i].value))
              && (forall i, j :: 0 <= i < j < |members| ==> members[i].key != members[j].key)
  {
    KeysAreFresh(members, {});
  }

  lemma {:induction false} KeysAreFresh(members: seq<Member>, seen: set<string>)
    ensures WellKeyedMembers(members, seen) <==>
              && (forall i :: 0 <= i < |members| ==> 1 <= |members[i].key| <= 128 && WellKeyed(members[i].value))
              && (forall i :: 0 <= i < |members| ==> members[i].key !in seen)
              && (forall i, j :: 0 <= i < j < |members| ==> members[i].key != members[j].key)
    decreases |members|
  {
    if members != [] {
      var tail := members[1..];
      KeysAreFresh(tail, seen + {members[0].key});
      assert forall i :: 1 <= i < |members| ==> members[i] == tail[i - 1];
      assert members == [members[0]] + tail;
    }
  }

  // ------------------------------------------------------------------ depth and number of values

  /** An array in an array, `n` deep. */
  function Nested(n: nat): Tree { if n == 0 then LNull else LArr([Nested(n - 1)]) }

  lemma {:induction false} NestedSize(n: nat)
    ensures SizeOf(Nested(n)) == Size(n + 1, n + 1, 0) && WellKeyed(Nested(n))
  {
    if n > 0 {
      NestedSize(n - 1);
      var items := [Nested(n - 1)];
      assert items[1..] == [] && items[0] == Nested(n - 1);
      assert ItemSizes(items) == Plus(SizeOf(items[0]), ItemSizes(items[1..]));
    }
  }

  /** A null inside `n` arrays decodes exactly up to six of them. */
  lemma NestingIsBounded(n: nat)
    ensures Decode(Tokens(Nested(n)), 0, MAX_NODES, MAX_BYTES).Done? <==> n <= 6
  {
    NestedSize(n);
    assert Tokens(Nested(n)) + [] == Tokens(Nested(n));
    if n <= 6 {
      DecodeTree(Nested(n), [], 0, MAX_NODES, MAX_BYTES);
    } else {
      NestedTooDeep(n, 0, MAX_NODES, []);
    }
  }

  lemma {:induction false} NestedTooDeep(n: nat, depth: nat, nodes: int, rest: seq<Token>)
    requires depth <= 7 && depth + n > 6
    ensures Decode(Tokens(Nested(n)) + rest, depth, nodes, MAX_BYTES).Failed?
    decreases n
  {
    if n > 0 && depth <= 6 && nodes > 0 {
      var items := [Nested(n - 1)];
      assert items[1..] == [] && ItemTokens(items) == Tokens(Nested(n - 1)) + [];
      var ts := Tokens(Nested(n)) + rest;
      assert ts[1..] == Tokens(Nested(n - 1)) + ([ArrayClose] + rest);
      FirstTokenOpens(Nested(n - 1));
      NestedTooDeep(n - 1, depth + 1, nodes - 1, [ArrayClose] + rest);
    }
  }

  /** An array of `n` nulls. */
  function Wide(n: nat): seq<Tree> { if n == 0 then [] else [LNull] + Wide(n - 1) }

  lemma WideTail(n: nat)
    requires n > 0
    ensures Wide(n) != [] && Wide(n)[0] == LNull && Wide(n)[1..] == Wide(n - 1)
    ensures ItemTokens(Wide(n)) == [Nil] + ItemTokens(Wide(n - 1))
  {
    assert Wide(n)[1..] == Wide(n - 1);
  }

  lemma {:induction false} WideSize(n: nat)
    ensures ItemSizes(Wide(n)) == Size(n, if n == 0 then 0 else 1, 0)
    ensures forall i :: 0 <= i < |Wide(n)| ==> Wide(n)[i] == LNull
  {
    if n > 0 {
      WideSize(n - 1);
      WideTail(n);
    }
  }

  lemma {:induction false} TooWide(n: nat, nodes: nat, text: int, acc: seq<Value>, rest: seq<Token>)
    requires n > nodes
    ensures DecodeItems(ItemTokens(Wide(n)) + rest, 0, nodes, text, acc).Failed?
    decreases n
  {
    var ts := ItemTokens(Wide(n)) + rest;
    WideTail(n);
    assert ts[0] == Nil && ts[1..] == ItemTokens(Wide(n - 1)) + rest;
    if nodes > 0 { TooWide(n - 1, nodes - 1, text, acc + [Null], rest); }
  }

  /** An array of nulls decodes exactly up to 127 of them: with itself that makes 128 values. */
  lemma WidthIsBounded(n: nat)
    ensures Decode(Tokens(LArr(Wide(n))), 0, MAX_NODES, MAX_BYTES).Done? <==> n <= 127
  {
    if n <= 127 { NotTooWide(n); } else { TooWideFails(n); }
  }

  lemma NotTooWide(n: nat)
    requires n <= 127
    ensures Decode(Tokens(LArr(Wide(n))), 0, MAX_NODES, MAX_BYTES).Done?
  {
    var t := LArr(Wide(n));
    WideSize(n);
    assert SizeOf(t) == Around(ItemSizes(Wide(n))) && WellKeyed(t);
    DecodeTree(t, [], 0, MAX_NODES, MAX_BYTES);
    assert Tokens(t) + [] == Tokens(t);
  }

  lemma TooWideFails(n: nat)
    requires n > 127
    ensures Decode(Tokens(LArr(Wide(n))), 0, MAX_NODES, MAX_BYTES).Failed?
  {
    var ts := Tokens(LArr(Wide(n)));
    assert ts[0] == ArrayOpen && ts[1..] == ItemTokens(Wide(n)) + [ArrayClose];
    TooWide(n, MAX_NODES - 1, MAX_BYTES, [], [ArrayClose]);
  }
}
