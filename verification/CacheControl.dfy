/** Pruning of cache_control marks in a request body: blocks nested in "content" are visited in preorder, every
    mark loses its ttl, and the first marks in excess of a limit are removed. */
module CacheControl {
  import opened Domain

  datatype Json = Array(items: seq<Json>) | Object(fields: map<string, Json>) | Scalar(text: string)

  const MARK := "cache_control"
  const CONTENT := "content"
  const TTL := "ttl"
  const SYSTEM := "system"
  const MESSAGES := "messages"

  /** The mark of a block, if it carries one. */
  type Slot = Option<Json>

  function SlotOf(fields: map<string, Json>): Slot {
    if MARK in fields then Some(fields[MARK]) else None
  }

  function WithSlot(fields: map<string, Json>, s: Slot): map<string, Json> {
    match s
    case None => fields - {MARK}
    case Some(m) => fields[MARK := m]
  }

  function WithContent(fields: map<string, Json>, content: Json): map<string, Json> {
    if CONTENT in fields then fields[CONTENT := content] else fields
  }

  function StripSlot(s: Slot): Slot {
    if s.Some? && s.value.Object? then Some(Object(s.value.fields - {TTL})) else s
  }

  /* ---------- the walk: the slots of all visited blocks, in preorder ---------- */

  function Slots(v: Json): seq<Slot>
    decreases v
  {
    if v.Array? then SlotsOfItems(v.items) else []
  }

  function SlotsOfItems(items: seq<Json>): seq<Slot>
    decreases items
  {
    if items == [] then [] else SlotsOfItem(items[0]) + SlotsOfItems(items[1..])
  }

  function SlotsOfItem(item: Json): seq<Slot>
    decreases item
  {
    if !item.Object? then []
    else [SlotOf(item.fields)] + if CONTENT in item.fields then Slots(item.fields[CONTENT]) else []
  }

  function Count(slots: seq<Slot>): nat {
    if slots == [] then 0 else (if slots[0].Some? then 1 else 0) + Count(slots[1..])
  }

  /* ---------- stripping ---------- */

  function Strip(v: Json): Json
    decreases v
  {
    if v.Array? then Array(StripItems(v.items)) else v
  }

  function StripItems(items: seq<Json>): seq<Json>
    decreases items
  {
    if items == [] then [] else [StripItem(items[0])] + StripItems(items[1..])
  }

  function StripItem(item: Json): Json
    decreases item
  {
    if !item.Object? then item
    else
      var f := WithSlot(item.fields, StripSlot(SlotOf(item.fields)));
      Object(if CONTENT in item.fields then WithContent(f, Strip(item.fields[CONTENT])) else f)
  }

  /* ---------- removing ---------- */

  /** Removes the first `n` marks; also returns how many are still to be removed. */
  function Remove(v: Json, n: nat): (Json, nat)
    decreases v
  {
    if v.Array? then
      var (items, left) := RemoveItems(v.items, n);
      (Array(items), left)
    else (v, n)
  }

  function RemoveItems(items: seq<Json>, n: nat): (seq<Json>, nat)
    decreases items
  {
    if items == [] then ([], n)
    else
      var (first, left) := RemoveItem(items[0], n);
      var (others, rest) := RemoveItems(items[1..], left);
      ([first] + others, rest)
  }

  function RemoveItem(item: Json, n: nat): (Json, nat)
    decreases item
  {
    if !item.Object? then (item, n)
    else
      var hit := n > 0 && SlotOf(item.fields).Some?;
      var f, left := if hit then WithSlot(item.fields, None) else item.fields, if hit then n - 1 else n;
      if CONTENT !in item.fields then (Object(f), left)
      else
        var (content, rest) := Remove(item.fields[CONTENT], left);
        (Object(WithContent(f, content)), rest)
  }

  /* ---------- the whole body ---------- */

  function At(body: map<string, Json>, field: string): Json {
    if field in body then body[field] else Scalar("")
  }

  function Put(body: map<string, Json>, field: string, v: Json): map<string, Json> {
    if field in body then body[field := v] else body
  }

  function StripField(body: map<string, Json>, field: string): map<string, Json> {
    Put(body, field, Strip(At(body, field)))
  }

  function Enforce(body: map<string, Json>, maxBlocks: int): map<string, Json> {
    var total := Count(Slots(At(body, SYSTEM))) + Count(Slots(At(body, MESSAGES)));
    var stripped := StripField(StripField(body, SYSTEM), MESSAGES);
    if total <= maxBlocks then stripped
    else
      var (messages, left) := Remove(At(stripped, MESSAGES), total - maxBlocks);
      var pruned := Put(stripped, MESSAGES, messages);
      if left > 0 then Put(pruned, SYSTEM, Remove(At(pruned, SYSTEM), left).0) else pruned
  }

  /* ---------- the reference: lists of slots, and what is left of a tree without them ---------- */

  function Stripped(slots: seq<Slot>): seq<Slot> {
    seq(|slots|, i requires 0 <= i < |slots| => StripSlot(slots[i]))
  }

  /** The first `n` marks of the list are gone. */
  function Cleared(slots: seq<Slot>, n: nat): seq<Slot>
    decreases |slots|
  {
    if slots == [] || n == 0 then slots
    else if slots[0].Some? then [None] + Cleared(slots[1..], n - 1)
    else [None] + Cleared(slots[1..], n)
  }

  function Skeleton(v: Json): Json
    decreases v
  {
    if v.Array? then Array(SkeletonItems(v.items)) else v
  }

  function SkeletonItems(items: seq<Json>): seq<Json>
    decreases items
  {
    if items == [] then [] else [SkeletonItem(items[0])] + SkeletonItems(items[1..])
  }

  function SkeletonItem(item: Json): Json
    decreases item
  {
    if !item.Object? then item
    else
      var f := WithSlot(item.fields, None);
      Object(if CONTENT in item.fields then WithContent(f, Skeleton(item.fields[CONTENT])) else f)
  }

  function Minus(n: nat, m: nat): nat {
    if n > m then n - m else 0
  }

  /* ---------- lists ---------- */

  lemma {:induction false} CountConcat(a: seq<Slot>, b: seq<Slot>)
    ensures Count(a + b) == Count(a) + Count(b)
  {
    if a == [] {
      assert a + b == b;
    } else {
      assert (a + b)[1..] == a[1..] + b;
      CountConcat(a[1..], b);
    }
  }

  lemma {:induction false} ClearedConcat(a: seq<Slot>, b: seq<Slot>, n: nat)
    ensures Cleared(a + b, n) == Cleared(a, n) + Cleared(b, Minus(n, Count(a)))
    decreases |a|
  {
    if a == [] {
      assert a + b == b;
    } else if n == 0 {
    } else {
      assert (a + b)[1..] == a[1..] + b;
      ClearedConcat(a[1..], b, if a[0].Some? then n - 1 else n);
    }
  }

  lemma {:induction false} ClearedCount(a: seq<Slot>, n: nat)
    ensures Count(Cleared(a, n)) == Minus(Count(a), n) && |Cleared(a, n)| == |a|
    decreases |a|
  {
    if a != [] && n > 0 {
      var rest := Cleared(a[1..], if a[0].Some? then n - 1 else n);
      ClearedCount(a[1..], if a[0].Some? then n - 1 else n);
      assert ([None] + rest)[1..] == rest;
    }
  }

  lemma {:induction false} StrippedCount(a: seq<Slot>)
    ensures Count(Stripped(a)) == Count(a)
  {
    if a != [] {
      assert Stripped(a)[1..] == Stripped(a[1..]);
      StrippedCount(a[1..]);
    }
  }

  lemma StrippedConcat(a: seq<Slot>, b: seq<Slot>)
    ensures Stripped(a + b) == Stripped(a) + Stripped(b)
  {
  }

  /* ---------- stripping and removing act on the slots and leave the skeleton ---------- */

  lemma FieldsRebuilt(f: map<string, Json>, s: Slot, content: Json)
    ensures var g := WithSlot(f, s); SlotOf(g) == s && (CONTENT in g <==> CONTENT in f) && WithSlot(g, None) == WithSlot(f, None)
    ensures var g := WithContent(WithSlot(f, s), content);
      && SlotOf(g) == s && (CONTENT in g <==> CONTENT in f) && (CONTENT in f ==> g[CONTENT] == content)
      && WithSlot(g, None) == WithContent(WithSlot(f, None), content)
  {
    assert MARK != CONTENT by { assert MARK[1] == 'a' && CONTENT[1] == 'o'; }
  }

  lemma {:induction false} StripSlots(v: Json)
    ensures Slots(Strip(v)) == Stripped(Slots(v)) && Skeleton(Strip(v)) == Skeleton(v)
    decreases v
  {
    if v.Array? { StripSlotsItems(v.items); }
  }

  lemma {:induction false} StripSlotsItems(items: seq<Json>)
    ensures SlotsOfItems(StripItems(items)) == Stripped(SlotsOfItems(items))
    ensures SkeletonItems(StripItems(items)) == SkeletonItems(items)
    decreases items
  {
    if items != [] {
      StripSlotsItem(items[0]);
      StripSlotsItems(items[1..]);
      assert StripItems(items)[1..] == StripItems(items[1..]);
      StrippedConcat(SlotsOfItem(items[0]), SlotsOfItems(items[1..]));
    }
  }

  lemma {:induction false} StripSlotsItem(item: Json)
    ensures SlotsOfItem(StripItem(item)) == Stripped(SlotsOfItem(item)) && SkeletonItem(StripItem(item)) == SkeletonItem(item)
    decreases item
  {
    if item.Object? {
      var s := StripSlot(SlotOf(item.fields));
      if CONTENT in item.fields {
        StripSlots(item.fields[CONTENT]);
        FieldsRebuilt(item.fields, s, Strip(item.fields[CONTENT]));
      } else {
        FieldsRebuilt(item.fields, s, Scalar(""));
      }
    }
  }

  /** `v` with the first `n` marks removed, as seen through slots and skeleton. */
  ghost predicate Removes(before: seq<Slot>, after: seq<Slot>, n: nat, left: nat) {
    after == Cleared(before, n) && left == Minus(n, Count(before))
  }

  lemma {:induction false} RemoveSlots(v: Json, n: nat)
    ensures var (r, left) := Remove(v, n); Removes(Slots(v), Slots(r), n, left) && Skeleton(r) == Skeleton(v)
    decreases v
  {
    if v.Array? { RemoveSlotsItems(v.items, n); }
  }

  lemma {:induction false} RemoveSlotsItems(items: seq<Json>, n: nat)
    ensures var (r, left) := RemoveItems(items, n);
      Removes(SlotsOfItems(items), SlotsOfItems(r), n, left) && SkeletonItems(r) == SkeletonItems(items)
    decreases items
  {
    if items != [] {
      var (first, left) := RemoveItem(items[0], n);
      var (others, rest) := RemoveItems(items[1..], left);
      RemoveSlotsItem(items[0], n);
      RemoveSlotsItems(items[1..], left);
      assert ([first] + others)[1..] == others;
      ClearedConcat(SlotsOfItem(items[0]), SlotsOfItems(items[1..]), n);
      CountConcat(SlotsOfItem(items[0]), SlotsOfItems(items[1..]));
    }
  }

  lemma {:induction false} RemoveSlotsItem(item: Json, n: nat)
    ensures var (r, left) := RemoveItem(item, n);
      Removes(SlotsOfItem(item), SlotsOfItem(r), n, left) && SkeletonItem(r) == SkeletonItem(item)
    decreases item
  {
    if item.Object? {
      var s := SlotOf(item.fields);
      var hit := n > 0 && s.Some?;
      var m := if hit then n - 1 else n;
      var inner := if CONTENT in item.fields then Slots(item.fields[CONTENT]) else [];
      assert ([s] + inner)[1..] == inner;
      KeepSlot(item.fields);
      if CONTENT in item.fields {
        RemoveSlots(item.fields[CONTENT], m);
        FieldsRebuilt(item.fields, if hit then None else s, Remove(item.fields[CONTENT], m).0);
      } else {
        FieldsRebuilt(item.fields, if hit then None else s, Scalar(""));
      }
      ClearedHead(s, inner, n);
    }
  }

  lemma KeepSlot(f: map<string, Json>)
    ensures WithSlot(f, SlotOf(f)) == f
  {
  }

  lemma ClearedHead(s: Slot, inner: seq<Slot>, n: nat)
    ensures var hit := n > 0 && s.Some?;
      Cleared([s] + inner, n) == [if hit then None else s] + Cleared(inner, if hit then n - 1 else n)
  {
    assert ([s] + inner)[1..] == inner;
    if n == 0 { assert Cleared(inner, 0) == inner; }
  }

  /* ---------- the guarantees ---------- */

  /** All slots of a body in the order of removal: messages, then system. */
  function BodySlots(body: map<string, Json>): seq<Slot> {
    Slots(At(body, MESSAGES)) + Slots(At(body, SYSTEM))
  }

  /** The body without the marks of its visited blocks. */
  function BodySkeleton(body: map<string, Json>): map<string, Json> {
    Put(Put(body, SYSTEM, Skeleton(At(body, SYSTEM))), MESSAGES, Skeleton(At(body, MESSAGES)))
  }

  function Excess(body: map<string, Json>, maxBlocks: int): nat {
    if Count(BodySlots(body)) <= maxBlocks then 0 else Count(BodySlots(body)) - maxBlocks
  }

  /** `after` is `before` with other values in the two fields that are walked, and those have the given skeletons. */
  lemma FieldsReplaced(before: map<string, Json>, system: Json, messages: Json)
    requires Skeleton(system) == Skeleton(At(before, SYSTEM)) && Skeleton(messages) == Skeleton(At(before, MESSAGES))
    requires SYSTEM !in before ==> system == Scalar("")
    requires MESSAGES !in before ==> messages == Scalar("")
    ensures var after := Put(Put(before, SYSTEM, system), MESSAGES, messages);
      BodySkeleton(after) == BodySkeleton(before) && BodySlots(after) == Slots(messages) + Slots(system)
  {
    assert SYSTEM != MESSAGES by { assert SYSTEM[0] == 's' && MESSAGES[0] == 'm'; }
    var after := Put(Put(before, SYSTEM, system), MESSAGES, messages);
    assert At(after, SYSTEM) == system && At(after, MESSAGES) == messages;
  }

  /** Enforcement, as two replaced fields. */
  lemma EnforceFields(body: map<string, Json>, maxBlocks: int)
    ensures var ex := Excess(body, maxBlocks);
      var (messages, left) := Remove(Strip(At(body, MESSAGES)), ex);
      var system := Remove(Strip(At(body, SYSTEM)), left).0;
      Enforce(body, maxBlocks) == Put(Put(body, SYSTEM, system), MESSAGES, messages)
  {
    assert SYSTEM != MESSAGES by { assert SYSTEM[0] == 's' && MESSAGES[0] == 'm'; }
    CountConcat(Slots(At(body, MESSAGES)), Slots(At(body, SYSTEM)));
    RemoveNothing(Strip(At(body, MESSAGES)));
    RemoveNothing(Strip(At(body, SYSTEM)));
    var stripped := StripField(StripField(body, SYSTEM), MESSAGES);
    assert At(stripped, MESSAGES) == Strip(At(body, MESSAGES)) && At(stripped, SYSTEM) == Strip(At(body, SYSTEM));
  }

  lemma {:induction false} RemoveNothing(v: Json)
    ensures Remove(v, 0) == (v, 0)
    decreases v
  {
    if v.Array? { RemoveNothingItems(v.items); }
  }

  lemma {:induction false} RemoveNothingItems(items: seq<Json>)
    ensures RemoveItems(items, 0) == (items, 0)
    decreases items
  {
    if items != [] {
      var item := items[0];
      if item.Object? && CONTENT in item.fields {
        RemoveNothing(item.fields[CONTENT]);
        assert WithContent(item.fields, item.fields[CONTENT]) == item.fields;
      }
      RemoveNothingItems(items[1..]);
      assert items == [items[0]] + items[1..];
    }
  }

  /** After enforcement the marks are those of before, without their ttl and without the first in excess of the
      limit, in preorder of messages and then of system; everything else in the body is as it was. */
  lemma EnforceExact(body: map<string, Json>, maxBlocks: int)
    ensures var after := Enforce(body, maxBlocks);
      && BodySlots(after) == Cleared(Stripped(BodySlots(body)), Excess(body, maxBlocks))
      && BodySkeleton(after) == BodySkeleton(body)
  {
    var ex := Excess(body, maxBlocks);
    var m, s := Strip(At(body, MESSAGES)), Strip(At(body, SYSTEM));
    var (messages, left) := Remove(m, ex);
    var system := Remove(s, left).0;
    EnforceFields(body, maxBlocks);
    StripSlots(At(body, MESSAGES));
    StripSlots(At(body, SYSTEM));
    RemoveSlots(m, ex);
    RemoveSlots(s, left);
    FieldsReplaced(body, system, messages);
    StrippedConcat(Slots(At(body, MESSAGES)), Slots(At(body, SYSTEM)));
    ClearedConcat(Slots(m), Slots(s), ex);
  }

  /** A mark without its ttl. */
  function Bare(m: Json): Json {
    if m.Object? then Object(map k | k in m.fields && k != "ttl" :: m.fields[k]) else m
  }

  lemma {:induction false} ClearedAt(slots: seq<Slot>, n: nat, i: nat)
    requires i < |slots|
    ensures |Cleared(slots, n)| == |slots|
    ensures Cleared(slots, n)[i] == if slots[i].None? || Count(slots[..i]) < n then None else slots[i]
    decreases |slots|
  {
    ClearedCount(slots, n);
    if n > 0 && i > 0 {
      var m := if slots[0].Some? then n - 1 else n;
      ClearedAt(slots[1..], m, i - 1);
      assert slots[..i][1..] == slots[1..][..i - 1];
    }
  }

  lemma BareIsStripped(s: Slot)
    ensures StripSlot(s) == if s.Some? then Some(Bare(s.value)) else None
  {
    if s.Some? && s.value.Object? { assert s.value.fields - {TTL} == Bare(s.value).fields; }
  }

  /** The visited blocks of a body, those of "messages" before those of "system". */
  function BlocksOf(body: map<string, Json>): seq<Slot> {
    (if "messages" in body then Slots(body["messages"]) else []) + (if "system" in body then Slots(body["system"]) else [])
  }

  /** The blocks of a list: each object in it with its mark, if it has one, followed by the blocks of its content. */
  lemma BlocksOfList(items: seq<Json>)
    requires items != []
    ensures Slots(Array(items)) == (
      if items[0].Object? then
        var f := items[0].fields;
        [if "cache_control" in f then Some(f["cache_control"]) else None] + (if "content" in f then Slots(f["content"]) else [])
      else []) + Slots(Array(items[1..]))
    ensures Slots(Array([])) == []
  {
    assert Array(items).items == items && SlotsOfItems(items) == SlotsOfItem(items[0]) + SlotsOfItems(items[1..]);
  }

  lemma BlocksAreSlots(body: map<string, Json>)
    ensures BlocksOf(body) == BodySlots(body)
  {
  }

  /** Enforcement, mark by mark: the blocks are the same, and the i-th block keeps its mark, without its ttl, exactly if it
      had one and as many marks before it as there are in excess. */
  lemma EnforceMarks(body: map<string, Json>, maxBlocks: int, i: nat)
    requires i < |BlocksOf(body)|
    ensures var before, after := BlocksOf(body), BlocksOf(Enforce(body, maxBlocks));
      && |after| == |before|
      && after[i] == if before[i].Some? && Count(before[..i]) >= Count(before) - maxBlocks then Some(Bare(before[i].value)) else None
  {
    var before := BlocksOf(body);
    BlocksAreSlots(body);
    BlocksAreSlots(Enforce(body, maxBlocks));
    EnforceExact(body, maxBlocks);
    ClearedAt(Stripped(before), Excess(body, maxBlocks), i);
    BareIsStripped(before[i]);
    assert Stripped(before)[..i] == Stripped(before[..i]);
    StrippedCount(before[..i]);
  }

  /** And nothing else: the body has the fields it had, and but for the marks of its blocks they hold what they held. */
  lemma EnforceKeepsRest(body: map<string, Json>, maxBlocks: int, field: string)
    ensures var after := Enforce(body, maxBlocks);
      && (field in after <==> field in body)
      && (field in body ==>
            if field == "system" || field == "messages" then Skeleton(after[field]) == Skeleton(body[field])
            else after[field] == body[field])
  {
    var m, s := Strip(At(body, MESSAGES)), Strip(At(body, SYSTEM));
    var (messages, left) := Remove(m, Excess(body, maxBlocks));
    EnforceFields(body, maxBlocks);
    StripSlots(At(body, MESSAGES));
    StripSlots(At(body, SYSTEM));
    RemoveSlots(m, Excess(body, maxBlocks));
    RemoveSlots(s, left);
    PutTwice(body, field, Remove(s, left).0, messages);
  }

  lemma PutTwice(body: map<string, Json>, field: string, system: Json, messages: Json)
    ensures var after := Put(Put(body, SYSTEM, system), MESSAGES, messages);
      && (field in after <==> field in body)
      && (field in body ==> after[field] == if field == "messages" then messages else if field == "system" then system else body[field])
  {
    assert SYSTEM != MESSAGES by { assert SYSTEM[0] == 's' && MESSAGES[0] == 'm'; }
  }

  /** The body then holds exactly min(total, max(0, maxBlocks)) marks. */
  lemma EnforceCount(body: map<string, Json>, maxBlocks: int)
    ensures var total, limit := Count(BodySlots(body)), if maxBlocks < 0 then 0 else maxBlocks;
      Count(BodySlots(Enforce(body, maxBlocks))) == if total < limit then total else limit
  {
    EnforceExact(body, maxBlocks);
    StrippedCount(BodySlots(body));
    ClearedCount(Stripped(BodySlots(body)), Excess(body, maxBlocks));
  }

  /* ---------- slots and skeleton together are the whole tree ---------- */

  lemma {:induction false} SlotsDetermine(u: Json, v: Json)
    requires Skeleton(u) == Skeleton(v) && Slots(u) == Slots(v)
    ensures u == v
    decreases u
  {
    if u.Array? && v.Array? { SlotsDetermineItems(u.items, v.items, [], []); }
  }

  /** `p` and `q` are slots that follow. */
  lemma {:induction false} SlotsDetermineItems(us: seq<Json>, vs: seq<Json>, p: seq<Slot>, q: seq<Slot>)
    requires SkeletonItems(us) == SkeletonItems(vs) && SlotsOfItems(us) + p == SlotsOfItems(vs) + q
    ensures us == vs && p == q
    decreases us
  {
    if us == [] {
      assert SkeletonItems(vs) == [] && vs == [];
      assert SlotsOfItems(us) + p == p && SlotsOfItems(vs) + q == q;
    } else {
      assert SkeletonItems(vs) != [] && vs != [];
      var u, v := us[0], vs[0];
      assert SkeletonItems(us)[0] == SkeletonItem(u) && SkeletonItems(vs)[0] == SkeletonItem(v);
      assert SkeletonItems(us)[1..] == SkeletonItems(us[1..]) && SkeletonItems(vs)[1..] == SkeletonItems(vs[1..]);
      assert SlotsOfItems(us) + p == SlotsOfItem(u) + (SlotsOfItems(us[1..]) + p);
      assert SlotsOfItems(vs) + q == SlotsOfItem(v) + (SlotsOfItems(vs[1..]) + q);
      SlotsDetermineItem(u, v, SlotsOfItems(us[1..]) + p, SlotsOfItems(vs[1..]) + q);
      SlotsDetermineItems(us[1..], vs[1..], p, q);
      assert us == [u] + us[1..] && vs == [v] + vs[1..];
    }
  }

  lemma {:induction false} SlotsDetermineItem(u: Json, v: Json, p: seq<Slot>, q: seq<Slot>)
    requires SkeletonItem(u) == SkeletonItem(v) && SlotsOfItem(u) + p == SlotsOfItem(v) + q
    ensures u == v && p == q
    decreases u
  {
    if !u.Object? {
      assert SlotsOfItem(u) + p == p && SlotsOfItem(v) + q == q;
    } else {
      var f, g := u.fields, v.fields;
      var x, y := if CONTENT in f then Skeleton(f[CONTENT]) else Scalar(""), if CONTENT in g then Skeleton(g[CONTENT]) else Scalar("");
      FieldsRebuilt(f, None, x);
      FieldsRebuilt(g, None, y);
      var a, b := if CONTENT in f then Slots(f[CONTENT]) else [], if CONTENT in g then Slots(g[CONTENT]) else [];
      assert SlotsOfItem(u) + p == [SlotOf(f)] + (a + p) && SlotsOfItem(v) + q == [SlotOf(g)] + (b + q);
      assert SlotOf(f) == ([SlotOf(f)] + (a + p))[0] == SlotOf(g);
      assert a + p == ([SlotOf(f)] + (a + p))[1..] == b + q;
      if CONTENT in f {
        ContentDetermined(f[CONTENT], g[CONTENT], p, q);
      } else {
        assert a + p == p && b + q == q;
      }
      SameFields(f, g, x, y);
    }
  }

  lemma {:induction false} ContentDetermined(u: Json, v: Json, p: seq<Slot>, q: seq<Slot>)
    requires Skeleton(u) == Skeleton(v) && Slots(u) + p == Slots(v) + q
    ensures u == v && p == q
    decreases u
  {
    if u.Array? {
      SlotsDetermineItems(u.items, v.items, p, q);
    } else {
      assert Slots(u) + p == p && Slots(v) + q == q;
    }
  }

  lemma SameFields(f: map<string, Json>, g: map<string, Json>, x: Json, y: Json)
    requires SlotOf(f) == SlotOf(g) && (CONTENT in f <==> CONTENT in g) && (CONTENT in f ==> f[CONTENT] == g[CONTENT])
    requires WithContent(WithSlot(f, None), x) == WithContent(WithSlot(g, None), y)
    ensures f == g
  {
    var u, v := WithContent(WithSlot(f, None), x), WithContent(WithSlot(g, None), y);
    forall k ensures (k in f <==> k in g) && (k in f ==> f[k] == g[k]) {
      if k != MARK && k != CONTENT {
        assert k in f <==> k in u;
        assert k in g <==> k in v;
      }
    }
    assert f.Keys == g.Keys;
  }
}
