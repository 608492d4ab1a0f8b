/** The `Array.prototype.filter` calls the message pages apply to fetched
    lists. The elements are whatever the messaging engine returned, so a
    callback reading `msg.from`, `msg.system` or `msg.group` throws on a
    `null` element, and the whole `filter` call throws with it. */
module MessageFilters {
  import opened JsValues

  /** The three filter callbacks: `msg.from === address` (SentMessages),
      `msg.system` (SystemMessages), `msg.group === groupId` (GroupChat). */
  datatype Criterion = FromIs(address: string) | SystemFlag | InGroup(group: string)

  /** The property the callback reads. */
  function Key(c: Criterion): string
  {
    match c
    case FromIs(_) => "from"
    case SystemFlag => "system"
    case InGroup(_) => "group"
  }

  /** The callback's verdict on one element: strict equality with a string,
      or truthiness of the flag. */
  function Test(c: Criterion, msg: Json): (r: Outcome<bool>)
    ensures r.Threw? <==> msg == JNull
  {
    match Get(msg, Key(c))
    case Throws => Threw(NullReadMessage(Key(c)))
    case Undefined => Returned(false)
    case Found(v) =>
      Returned(match c
               case FromIs(a) => v == JString(a)
               case SystemFlag => Truthy(v)
               case InGroup(g) => v == JString(g))
  }

  /** The element passes the callback. */
  predicate Keeps(c: Criterion, msg: Json)
  {
    Test(c, msg) == Returned(true)
  }

  /** `items.filter(callback)`: the callback runs on every element in order;
      the first throw ends the call. */
  function Filter(c: Criterion, items: seq<Json>): (r: Outcome<seq<Json>>)
    ensures r.Threw? <==> JNull in items
    ensures r.Threw? ==> r.message == NullReadMessage(Key(c))
    ensures r.Returned? ==> |r.value| <= |items|
    ensures r.Returned? ==> forall x :: x in r.value ==> x in items && Keeps(c, x)
    ensures r.Returned? ==> forall x :: x in items && Keeps(c, x) ==> x in r.value
  {
    if items == [] then Returned([])
    else
      match Test(c, items[0])
      case Threw(m) => Threw(m)
      case Returned(keep) =>
        match Filter(c, items[1..])
        case Threw(m) => Threw(m)
        case Returned(rest) => Returned(if keep then [items[0]] + rest else rest)
  }

  /** Filtering a concatenation filters each part and keeps them in order:
      the filter never reorders what it keeps. */
  lemma {:induction false} FilterAppend(c: Criterion, a: seq<Json>, b: seq<Json>)
    requires JNull !in a && JNull !in b
    ensures Filter(c, a + b) == Returned(Filter(c, a).value + Filter(c, b).value)
  {
    if a != [] {
      assert (a + b)[0] == a[0];
      assert (a + b)[1..] == a[1..] + b;
      FilterAppend(c, a[1..], b);
      assert a[0] != JNull;
      var head := if Test(c, a[0]).value then [a[0]] else [];
      assert Filter(c, a).value == head + Filter(c, a[1..]).value;
      assert Filter(c, a + b).value == head + Filter(c, a[1..] + b).value;
      assert head + (Filter(c, a[1..]).value + Filter(c, b).value)
          == (head + Filter(c, a[1..]).value) + Filter(c, b).value;
    } else {
      assert a + b == b;
      assert Filter(c, a).value == [];
      assert Filter(c, b).Returned?;
      assert [] + Filter(c, b).value == Filter(c, b).value;
    }
  }

  /** Each value is kept exactly as often as it occurs in the input when it
      passes the callback, and never otherwise. */
  lemma {:induction false} FilterCount(c: Criterion, items: seq<Json>, x: Json)
    requires JNull !in items
    ensures multiset(Filter(c, items).value)[x] == if Keeps(c, x) then multiset(items)[x] else 0
  {
    if items != [] {
      FilterCount(c, items[1..], x);
      assert items == [items[0]] + items[1..];
      assert multiset(items) == multiset([items[0]]) + multiset(items[1..]);
    }
  }
}
