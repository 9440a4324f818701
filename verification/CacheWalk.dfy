/** The walks over content blocks as the program makes them: loops over the items of an array that carry a counter
    and descend into nested content. They are proved to do what module CacheControl says. */
module CacheWalk {
  import opened Domain
  import opened CacheControl

  lemma {:induction false} SlotsConcat(a: seq<Json>, b: seq<Json>)
    ensures SlotsOfItems(a + b) == SlotsOfItems(a) + SlotsOfItems(b)
    decreases |a|
  {
    if a == [] {
      assert a + b == b;
    } else {
      assert (a + b)[1..] == a[1..] + b && (a + b)[0] == a[0];
      SlotsConcat(a[1..], b);
      assert SlotsOfItems(a) + SlotsOfItems(b) == SlotsOfItem(a[0]) + (SlotsOfItems(a[1..]) + SlotsOfItems(b));
    }
  }

  lemma {:induction false} StripConcat(a: seq<Json>, b: seq<Json>)
    ensures StripItems(a + b) == StripItems(a) + StripItems(b)
    decreases |a|
  {
    if a == [] {
      assert a + b == b;
    } else {
      assert (a + b)[1..] == a[1..] + b && (a + b)[0] == a[0];
      StripConcat(a[1..], b);
      assert StripItems(a) + StripItems(b) == [StripItem(a[0])] + (StripItems(a[1..]) + StripItems(b));
    }
  }

  lemma {:induction false} RemoveConcat(a: seq<Json>, b: seq<Json>, n: nat)
    ensures var (xs, left) := RemoveItems(a, n); var (ys, rest) := RemoveItems(b, left); RemoveItems(a + b, n) == (xs + ys, rest)
    decreases |a|
  {
    var (xs, left) := RemoveItems(a, n);
    var (ys, rest) := RemoveItems(b, left);
    if a == [] {
      assert a + b == b && xs + ys == ys;
    } else {
      var (x, m) := RemoveItem(a[0], n);
      var (more, _) := RemoveItems(a[1..], m);
      assert (a + b)[1..] == a[1..] + b && (a + b)[0] == a[0];
      RemoveConcat(a[1..], b, m);
      assert xs + ys == [x] + (more + ys);
    }
  }

  lemma OneItem(item: Json, n: nat)
    ensures SlotsOfItems([item]) == SlotsOfItem(item) && StripItems([item]) == [StripItem(item)]
    ensures RemoveItems([item], n) == ([RemoveItem(item, n).0], RemoveItem(item, n).1)
  {
    var (x, m) := RemoveItem(item, n);
    assert [item][1..] == [];
    assert RemoveItems([item][1..], m) == ([], m);
    assert [x] + [] == [x];
  }

  lemma NextItem(items: seq<Json>, i: nat, n: nat)
    requires i < |items|
    ensures SlotsOfItems(items[..i + 1]) == SlotsOfItems(items[..i]) + SlotsOfItem(items[i])
    ensures StripItems(items[..i + 1]) == StripItems(items[..i]) + [StripItem(items[i])]
    ensures var (xs, left) := RemoveItems(items[..i], n); var (x, rest) := RemoveItem(items[i], left);
      RemoveItems(items[..i + 1], n) == (xs + [x], rest)
  {
    assert items[..i + 1] == items[..i] + [items[i]];
    SlotsConcat(items[..i], [items[i]]);
    StripConcat(items[..i], [items[i]]);
    RemoveConcat(items[..i], [items[i]], n);
    OneItem(items[i], RemoveItems(items[..i], n).1);
  }

  /** stripAndCountCacheControl on one value. */
  method StripAndCount(v: Json) returns (r: Json, count: nat)
    ensures r == Strip(v) && count == Count(Slots(v))
    decreases v
  {
    if !v.Array? { return v, 0; }
    var done: seq<Json> := [];
    count := 0;
    for i := 0 to |v.items|
      invariant done == StripItems(v.items[..i]) && count == Count(SlotsOfItems(v.items[..i]))
    {
      NextItem(v.items, i, 0);
      CountConcat(SlotsOfItems(v.items[..i]), SlotsOfItem(v.items[i]));
      var item := v.items[i];
      if item.Object? {
        var fields := item.fields;
        if MARK in fields {
          count := count + 1;
          if fields[MARK].Object? { fields := fields[MARK := Object(fields[MARK].fields - {TTL})]; }
        }
        KeepSlot(item.fields);
        assert fields == WithSlot(item.fields, StripSlot(SlotOf(item.fields)));
        if CONTENT in item.fields {
          var content, inner := StripAndCount(item.fields[CONTENT]);
          fields := WithContent(fields, content);
          count := count + inner;
        }
        CountHead(SlotOf(item.fields), if CONTENT in item.fields then Slots(item.fields[CONTENT]) else []);
        item := Object(fields);
      }
      done := done + [item];
    }
    assert v.items[..|v.items|] == v.items;
    r := Array(done);
  }

  lemma CountHead(s: Slot, inner: seq<Slot>)
    ensures Count([s] + inner) == (if s.Some? then 1 else 0) + Count(inner)
  {
    assert ([s] + inner)[1..] == inner;
  }

  /** removeCacheControls on one value: `left` is what is still to be removed. */
  method RemoveControls(v: Json, toRemove: nat) returns (r: Json, left: nat)
    ensures (r, left) == Remove(v, toRemove)
    decreases v
  {
    left := toRemove;
    if !v.Array? { return v, left; }
    var done: seq<Json> := [];
    for i := 0 to |v.items|
      invariant (done, left) == RemoveItems(v.items[..i], toRemove)
    {
      NextItem(v.items, i, toRemove);
      var item := v.items[i];
      if item.Object? {
        var fields := item.fields;
        if left > 0 && MARK in fields {
          fields := fields - {MARK};
          left := left - 1;
        }
        if CONTENT in item.fields {
          var content;
          content, left := RemoveControls(item.fields[CONTENT], left);
          fields := WithContent(fields, content);
        }
        item := Object(fields);
      }
      done := done + [item];
    }
    assert v.items[..|v.items|] == v.items;
    r := Array(done);
  }

  method EnforceCacheControl(body: map<string, Json>, maxBlocks: int) returns (r: map<string, Json>)
    ensures r == Enforce(body, maxBlocks)
  {
    r := body;
    var system, inSystem := StripAndCount(At(r, SYSTEM));
    r := Put(r, SYSTEM, system);
    var messages, inMessages := StripAndCount(At(r, MESSAGES));
    r := Put(r, MESSAGES, messages);
    assert At(body, MESSAGES) == At(Put(body, SYSTEM, system), MESSAGES) by { assert SYSTEM[0] != MESSAGES[0]; }
    if inSystem + inMessages <= maxBlocks { return; }
    var left;
    messages, left := RemoveControls(At(r, MESSAGES), inSystem + inMessages - maxBlocks);
    r := Put(r, MESSAGES, messages);
    if left > 0 {
      system, left := RemoveControls(At(r, SYSTEM), left);
      r := Put(r, SYSTEM, system);
    }
  }
}
