/** The two bounded in-memory caches of the launch path: the one-use
    attestation cache (internal/authn/pkce.go) and the delivery cache
    (internal/launch/service.go).  Both are a map and a slice of keys in
    first-insertion order, cut from the front when they grow past a bound. */
module BoundedCache {
  import opened Base

  // ---- The list a cache stands for ---------------------------------------

  datatype Entry<V> = Entry(id: nat, value: V)

  ghost predicate Distinct<V>(list: seq<Entry<V>>) {
    forall i, j | 0 <= i < j < |list| :: list[i].id != list[j].id
  }

  predicate Has<V>(list: seq<Entry<V>>, id: nat) { exists i | 0 <= i < |list| :: list[i].id == id }

  /** The list without the entry for id. */
  function Without<V>(list: seq<Entry<V>>, id: nat): seq<Entry<V>>
    decreases |list|
  {
    if list == [] then []
    else if list[0].id == id then list[1..]
    else [list[0]] + Without(list[1..], id)
  }

  /** The list with the entry for id replaced where it stands. */
  function Replaced<V>(list: seq<Entry<V>>, id: nat, v: V): seq<Entry<V>> {
    seq(|list|, i requires 0 <= i < |list| => if list[i].id == id then Entry(id, v) else list[i])
  }

  function Find<V>(list: seq<Entry<V>>, id: nat): Option<V>
    decreases |list|
  {
    if list == [] then None else if list[0].id == id then Some(list[0].value) else Find(list[1..], id)
  }

  /** Put: a known ID keeps its place, a new one goes last, and only the oldest
      entry makes room. */
  function ListPut<V>(list: seq<Entry<V>>, id: nat, v: V, cap: nat): seq<Entry<V>> {
    var longer := if Has(list, id) then Replaced(list, id, v) else list + [Entry(id, v)];
    if |longer| > cap then longer[1..] else longer
  }

  function Kept<V>(list: seq<Entry<V>>, dead: V -> bool): seq<Entry<V>>
    decreases |list|
  {
    if list == [] then []
    else
      var n := |list| - 1;
      if dead(list[n].value) then Kept(list[..n], dead) else Kept(list[..n], dead) + [list[n]]
  }

  /** The list after its tail beyond i has moved down as far as j. */
  function Shifted(s: seq<nat>, i: nat, j: nat): (r: seq<nat>)
    requires i <= j < |s|
    ensures |r| == |s|
  {
    seq(|s|, k requires 0 <= k < |s| => if i <= k < j then s[k + 1] else s[k])
  }

  lemma ShiftedFurther(s: seq<nat>, i: nat, j: nat)
    requires i <= j && j + 1 < |s|
    ensures Shifted(s, i, j)[j + 1] == s[j + 1]
    ensures Shifted(s, i, j)[j := s[j + 1]] == Shifted(s, i, j + 1)
  {
  }

  lemma ShiftedAll(s: seq<nat>, i: nat)
    requires i < |s|
    ensures Shifted(s, i, |s| - 1)[..|s| - 1] == s[..i] + s[i + 1..]
  {
  }

  // ---- Go's slice of keys ------------------------------------------------

  /** A window on a backing array, edited in place as Go's append and
      re-slicing do. */
  class Slice {
    var buf: array<nat>
    var off: nat
    var len: nat

    ghost predicate Valid()
      reads this
    {
      off + len <= buf.Length
    }

    ghost function Contents(): seq<nat>
      reads this, buf
      requires Valid()
    {
      buf[off..off + len]
    }

    constructor ()
      ensures Valid() && fresh(buf) && Contents() == []
    {
      buf := new nat[0];
      off, len := 0, 0;
    }

    method Get(i: nat) returns (x: nat)
      requires Valid() && i < len
      ensures x == Contents()[i]
    {
      return buf[off + i];
    }

    /** append(s, x): writes in place while there is room behind the window. */
    method Append(x: nat)
      requires Valid()
      modifies this, buf
      ensures Valid() && (buf == old(buf) || fresh(buf))
      ensures Contents() == old(Contents()) + [x]
    {
      if off + len == buf.Length {
        var grown := new nat[2 * len + 1];
        forall i | 0 <= i < len { grown[i] := buf[off + i]; }
        assert grown[..len] == buf[off..off + len];
        buf, off := grown, 0;
      }
      buf[off + len] := x;
      len := len + 1;
    }

    /** s = s[1:] */
    method DropFirst()
      requires Valid() && len > 0
      modifies this
      ensures Valid() && buf == old(buf) && Contents() == old(Contents())[1..]
    {
      off, len := off + 1, len - 1;
    }

    /** kept = append(kept, x) where kept shares the front of this window. */
    method WriteAt(k: nat, x: nat)
      requires Valid() && k < len
      modifies buf
      ensures Valid() && Contents() == old(Contents())[k := x]
    {
      buf[off + k] := x;
    }

    /** s = kept: the window shrinks to its first n elements. */
    method Truncate(n: nat)
      requires Valid() && n <= len
      modifies this
      ensures Valid() && buf == old(buf) && Contents() == old(Contents())[..n]
    {
      len := n;
    }

    /** The scan for a key that ends with its removal. */
    method Remove(x: nat) returns (ghost at: nat)
      requires Valid() && x in Contents()
      modifies this, buf
      ensures Valid() && buf == old(buf)
      ensures at < |old(Contents())| && old(Contents())[at] == x
      ensures Contents() == old(Contents())[..at] + old(Contents())[at + 1..]
    {
      var i := 0;
      while buf[off + i] != x
        invariant i < len && Valid()
        invariant buf == old(buf) && off == old(off) && len == old(len) && Contents() == old(Contents())
        invariant x in Contents()[i..]
        decreases len - i
      {
        assert Contents()[i..] == [buf[off + i]] + Contents()[i + 1..];
        i := i + 1;
      }
      at := i;
      RemoveAt(i);
    }

    /** s = append(s[:i], s[i+1:]...): moves the tail down in place. */
    method RemoveAt(i: nat)
      requires Valid() && i < len
      modifies this, buf
      ensures Valid() && buf == old(buf)
      ensures Contents() == old(Contents())[..i] + old(Contents())[i + 1..]
    {
      ghost var was := Contents();
      var j := i;
      while j + 1 < len
        invariant i <= j < len && Valid()
        invariant buf == old(buf) && off == old(off) && len == old(len)
        invariant Contents() == Shifted(was, i, j)
      {
        var next := Get(j + 1);
        WriteAt(j, next);
        ShiftedFurther(was, i, j);
        j := j + 1;
      }
      Truncate(len - 1);
      ShiftedAll(was, i);
    }
  }

  // ---- Keys and values together ------------------------------------------

  ghost predicate Matches<V>(ids: seq<nat>, items: map<nat, V>) {
    && (forall i, j | 0 <= i < j < |ids| :: ids[i] != ids[j])
    && (forall id :: id in items <==> id in ids)
  }

  ghost function ListOf<V>(ids: seq<nat>, items: map<nat, V>): (r: seq<Entry<V>>)
    requires forall id | id in ids :: id in items
    ensures |r| == |ids|
  {
    seq(|ids|, i requires 0 <= i < |ids| => Entry(ids[i], items[ids[i]]))
  }

  lemma MatchingListIsDistinct<V>(ids: seq<nat>, items: map<nat, V>)
    requires Matches(ids, items)
    ensures Distinct(ListOf(ids, items))
    ensures forall id :: Has(ListOf(ids, items), id) <==> id in items
  {
    var list := ListOf(ids, items);
    forall id
      ensures Has(list, id) <==> id in items
    {
      if id in items {
        var i :| 0 <= i < |ids| && ids[i] == id;
        assert list[i].id == id;
      }
    }
  }

  lemma PutKnown<V>(ids: seq<nat>, items: map<nat, V>, id: nat, v: V)
    requires Matches(ids, items) && id in items
    ensures Matches(ids, items[id := v])
    ensures ListOf(ids, items[id := v]) == Replaced(ListOf(ids, items), id, v)
  {
  }

  lemma PutNew<V>(ids: seq<nat>, items: map<nat, V>, id: nat, v: V)
    requires Matches(ids, items) && id !in items
    ensures Matches(ids + [id], items[id := v])
    ensures ListOf(ids + [id], items[id := v]) == ListOf(ids, items) + [Entry(id, v)]
  {
  }

  lemma RemovingKeepsMatch<V>(ids: seq<nat>, items: map<nat, V>, i: nat)
    requires Matches(ids, items) && i < |ids|
    ensures Matches(ids[..i] + ids[i + 1..], items - {ids[i]})
  {
    var rest := ids[..i] + ids[i + 1..];
    assert ids == ids[..i] + [ids[i]] + ids[i + 1..];
    forall id
      ensures id in items - {ids[i]} <==> id in rest
    {
      assert id in ids <==> id in rest || id == ids[i];
    }
  }

  lemma DropOldest<V>(ids: seq<nat>, items: map<nat, V>)
    requires Matches(ids, items) && ids != []
    ensures Matches(ids[1..], items - {ids[0]})
    ensures ListOf(ids[1..], items - {ids[0]}) == ListOf(ids, items)[1..]
  {
    assert ids[..0] + ids[0 + 1..] == ids[1..];
    RemovingKeepsMatch(ids, items, 0);
  }

  lemma {:induction false} WithoutAt<V>(list: seq<Entry<V>>, i: nat)
    requires Distinct(list) && i < |list|
    ensures Without(list, list[i].id) == list[..i] + list[i + 1..]
    decreases |list|
  {
    if i > 0 {
      WithoutAt(list[1..], i - 1);
      assert list[..i] == [list[0]] + list[1..][..i - 1];
      assert list[1..][i..] == list[i + 1..];
    }
  }

  lemma RemoveOne<V>(ids: seq<nat>, items: map<nat, V>, i: nat)
    requires Matches(ids, items) && i < |ids|
    ensures var rest := ids[..i] + ids[i + 1..];
            && Matches(rest, items - {ids[i]})
            && ListOf(rest, items - {ids[i]}) == Without(ListOf(ids, items), ids[i])
  {
    RemovingKeepsMatch(ids, items, i);
    MatchingListIsDistinct(ids, items);
    WithoutAt(ListOf(ids, items), i);
  }

  /** The IDs whose values are not dead, in order. */
  ghost function LiveIds<V>(ids: seq<nat>, items: map<nat, V>, dead: V -> bool): (r: seq<nat>)
    requires forall id | id in ids :: id in items
    ensures |r| <= |ids|
    ensures forall id :: id in r <==> id in ids && !dead(items[id])
    decreases |ids|
  {
    if ids == [] then []
    else
      var n := |ids| - 1;
      assert ids == ids[..n] + [ids[n]];
      if dead(items[ids[n]]) then LiveIds(ids[..n], items, dead) else LiveIds(ids[..n], items, dead) + [ids[n]]
  }

  lemma {:induction false} LiveIdsListKept<V>(ids: seq<nat>, items: map<nat, V>, dead: V -> bool)
    requires forall id | id in ids :: id in items
    requires forall i, j | 0 <= i < j < |ids| :: ids[i] != ids[j]
    ensures var live := LiveIds(ids, items, dead);
            && ListOf(live, items) == Kept(ListOf(ids, items), dead)
            && forall i, j | 0 <= i < j < |live| :: live[i] != live[j]
    decreases |ids|
  {
    if ids != [] {
      var n := |ids| - 1;
      var first := ids[..n];
      LiveIdsListKept(first, items, dead);
      assert ListOf(ids, items)[..n] == ListOf(first, items);
      assert ids[n] !in first;
      var live := LiveIds(first, items, dead);
      assert ids[n] !in live;
      assert ListOf(live + [ids[n]], items) == ListOf(live, items) + [Entry(ids[n], items[ids[n]])];
    }
  }

  // ---- The cache ---------------------------------------------------------

  class Cache<V> {
    var items: map<nat, V>
    const order: Slice
    const cap: nat

    ghost predicate Valid()
      reads this, order, order.buf
    {
      order.Valid() && Matches(order.Contents(), items) && |order.Contents()| <= cap
    }

    /** The entries, oldest first. */
    ghost function Contents(): seq<Entry<V>>
      reads this, order, order.buf
      requires Valid()
    {
      ListOf(order.Contents(), items)
    }

    constructor (cap: nat)
      ensures Valid() && fresh(order) && fresh(order.buf) && Contents() == [] && this.cap == cap
    {
      this.cap := cap;
      items := map[];
      order := new Slice();
    }

    method DropOldestEntry()
      requires order.Valid() && Matches(order.Contents(), items) && order.len > 0
      modifies this, order
      ensures order.Valid() && order.buf == old(order.buf) && Matches(order.Contents(), items)
      ensures order.len == old(order.len) - 1
      ensures ListOf(order.Contents(), items) == ListOf(old(order.Contents()), old(items))[1..]
    {
      ghost var ids, was := order.Contents(), items;
      DropOldest(ids, was);
      var oldest := order.Get(0);
      order.DropFirst();
      items := items - {oldest};
      assert order.Contents() == ids[1..] && items == was - {ids[0]};
    }

    /** The loop that makes room. */
    method Trim()
      requires order.Valid() && Matches(order.Contents(), items) && order.len <= cap + 1
      modifies this, order
      ensures Valid() && order.buf == old(order.buf)
      ensures var longer := ListOf(old(order.Contents()), old(items));
              Contents() == if |longer| > cap then longer[1..] else longer
    {
      ghost var longer := ListOf(order.Contents(), items);
      while order.len > cap
        invariant order.Valid() && Matches(order.Contents(), items) && order.buf == old(order.buf)
        invariant order.len == |longer| || order.len == cap == |longer| - 1
        invariant ListOf(order.Contents(), items) == if order.len == |longer| then longer else longer[1..]
        decreases order.len
      {
        DropOldestEntry();
      }
    }

    /** The first half of Put: a new ID joins the order, the value is stored. */
    method Enter(id: nat, v: V)
      requires Valid()
      modifies this, order, order.buf
      ensures order.Valid() && Matches(order.Contents(), items) && order.len <= cap + 1
      ensures order.buf == old(order.buf) || fresh(order.buf)
      ensures ListOf(order.Contents(), items)
           == if id in old(items) then Replaced(old(Contents()), id, v) else old(Contents()) + [Entry(id, v)]
    {
      ghost var ids := order.Contents();
      if id !in items {
        PutNew(ids, items, id, v);
        order.Append(id);
      } else {
        PutKnown(ids, items, id, v);
      }
      items := items[id := v];
    }

    /** Put and rememberDelivery. */
    method Put(id: nat, v: V)
      requires Valid()
      modifies this, order, order.buf
      ensures Valid() && (order.buf == old(order.buf) || fresh(order.buf))
      ensures Contents() == ListPut(old(Contents()), id, v, cap)
    {
      MatchingListIsDistinct(order.Contents(), items);
      Enter(id, v);
      Trim();
    }

    /** recallDelivery. */
    method Recall(id: nat) returns (r: Option<V>)
      requires Valid()
      ensures r == Find(Contents(), id)
    {
      FindIn(order.Contents(), items, id);
      return if id in items then Some(items[id]) else None;
    }

    /** Take: the entry goes, whether or not it is still alive. */
    method Take(id: nat, dead: V -> bool) returns (r: Option<V>)
      requires Valid()
      modifies this, order, order.buf
      ensures Valid() && order.buf == old(order.buf)
      ensures Contents() == Without(old(Contents()), id)
      ensures r == match Find(old(Contents()), id) case None => None case Some(v) => if dead(v) then None else Some(v)
    {
      FindIn(order.Contents(), items, id);
      if id !in items {
        NothingWithout(order.Contents(), items, id);
        return None;
      }
      var v := items[id];
      ghost var ids, was := order.Contents(), items;
      items := items - {id};
      ghost var at := order.Remove(id);
      RemoveOne(ids, was, at);
      return if dead(v) then None else Some(v);
    }

    /** The body of EvictExpired's loop. */
    method FilterNext(i: nat, kept: nat, dead: V -> bool, ghost ids: seq<nat>, ghost was: map<nat, V>) returns (k: nat)
      requires order.Valid() && i < order.len && Filtered(order.Contents(), items, i, kept, ids, was, dead)
      modifies this, order.buf
      ensures order.Valid() && Filtered(order.Contents(), items, i + 1, k, ids, was, dead)
    {
      FilterGoesOn(order.Contents(), items, i, kept, ids, was, dead);
      var key := order.Get(i);
      if key in items && dead(items[key]) {
        items := items - {key};
        return kept;
      }
      order.WriteAt(kept, key);
      return kept + 1;
    }

    /** The loop itself. */
    method FilterKeys(dead: V -> bool, ghost ids: seq<nat>, ghost was: map<nat, V>) returns (kept: nat)
      requires order.Valid() && ids == order.Contents() && was == items && Matches(ids, was)
      modifies this, order.buf
      ensures order.Valid() && Filtered(order.Contents(), items, |ids|, kept, ids, was, dead)
    {
      kept := 0;
      FilterStarts(ids, was, dead);
      for i := 0 to order.len
        invariant order.Valid() && order.len == |ids|
        invariant Filtered(order.Contents(), items, i, kept, ids, was, dead)
      {
        kept := FilterNext(i, kept, dead, ids, was);
      }
    }

    /** EvictExpired: an in-place filter of the keys. */
    method EvictExpired(dead: V -> bool)
      requires Valid()
      modifies this, order, order.buf
      ensures Valid() && order.buf == old(order.buf)
      ensures Contents() == Kept(old(Contents()), dead)
    {
      ghost var ids, was := order.Contents(), items;
      var kept := FilterKeys(dead, ids, was);
      ghost var c := order.Contents();
      FilterEnds(c, items, kept, ids, was, dead);
      order.Truncate(kept);
      assert order.Contents() == c[..kept];
    }
  }

  /** The first i keys are filtered into the first `kept` places. */
  ghost predicate Filtered<V>(c: seq<nat>, items: map<nat, V>, i: nat, kept: nat,
                              ids: seq<nat>, was: map<nat, V>, dead: V -> bool) {
    && Matches(ids, was)
    && |c| == |ids| && kept <= i <= |ids|
    && c[..kept] == LiveIds(ids[..i], was, dead)
    && c[i..] == ids[i..]
    && items == Left(was, ids[..i], dead)
  }

  lemma FilterStarts<V>(ids: seq<nat>, was: map<nat, V>, dead: V -> bool)
    requires Matches(ids, was)
    ensures Filtered(ids, was, 0, 0, ids, was, dead)
  {
    assert ids[..0] == [];
  }

  lemma FilterGoesOn<V>(c: seq<nat>, items: map<nat, V>, i: nat, kept: nat, ids: seq<nat>, was: map<nat, V>, dead: V -> bool)
    requires Filtered(c, items, i, kept, ids, was, dead) && i < |ids|
    ensures c[i] == ids[i] && c[i] in items && items[c[i]] == was[c[i]]
    ensures if dead(was[c[i]]) then Filtered(c, items - {c[i]}, i + 1, kept, ids, was, dead)
            else Filtered(c[kept := c[i]], items, i + 1, kept + 1, ids, was, dead)
  {
    assert c[i] == c[i..][0] == ids[i];
    NextKey(ids, was, dead, i);
    WrittenBehind(c, kept, i, c[i]);
  }

  lemma FilterEnds<V>(c: seq<nat>, items: map<nat, V>, kept: nat, ids: seq<nat>, was: map<nat, V>, dead: V -> bool)
    requires Filtered(c, items, |ids|, kept, ids, was, dead)
    ensures Matches(c[..kept], items) && ListOf(c[..kept], items) == Kept(ListOf(ids, was), dead)
  {
    assert ids[..|ids|] == ids;
    LiveIdsListKept(ids, was, dead);
    LeftMatches(ids, was, dead);
  }

  /** The map after the dead values under these keys are deleted. */
  ghost function Left<V>(items: map<nat, V>, keys: seq<nat>, dead: V -> bool): map<nat, V> {
    map id | id in items && !(id in keys && dead(items[id])) :: items[id]
  }

  lemma NextKey<V>(ids: seq<nat>, items: map<nat, V>, dead: V -> bool, i: nat)
    requires Matches(ids, items) && i < |ids|
    ensures var key := ids[i];
            && key in Left(items, ids[..i], dead) && Left(items, ids[..i], dead)[key] == items[key]
            && Left(items, ids[..i + 1], dead)
               == (if dead(items[key]) then Left(items, ids[..i], dead) - {key} else Left(items, ids[..i], dead))
            && LiveIds(ids[..i + 1], items, dead)
               == (if dead(items[key]) then LiveIds(ids[..i], items, dead) else LiveIds(ids[..i], items, dead) + [key])
  {
    assert ids[..i + 1] == ids[..i] + [ids[i]] && ids[..i + 1][..i] == ids[..i];
    assert ids[i] !in ids[..i];
    NextLeft(items, ids[..i], ids[i], dead);
  }

  lemma NextLeft<V>(items: map<nat, V>, keys: seq<nat>, key: nat, dead: V -> bool)
    requires key in items && key !in keys
    ensures key in Left(items, keys, dead)
    ensures Left(items, keys + [key], dead)
            == (if dead(items[key]) then Left(items, keys, dead) - {key} else Left(items, keys, dead))
  {
  }

  lemma WrittenBehind(s: seq<nat>, k: nat, i: nat, x: nat)
    requires k <= i < |s|
    ensures s[k := x][..k + 1] == s[..k] + [x]
    ensures s[k := x][i + 1..] == s[i..][1..] == s[i + 1..]
  {
  }

  lemma LeftMatches<V>(ids: seq<nat>, items: map<nat, V>, dead: V -> bool)
    requires Matches(ids, items)
    ensures Matches(LiveIds(ids, items, dead), Left(items, ids, dead))
    ensures ListOf(LiveIds(ids, items, dead), Left(items, ids, dead)) == ListOf(LiveIds(ids, items, dead), items)
  {
    LiveIdsListKept(ids, items, dead);
  }

  lemma {:induction false} FindIn<V>(ids: seq<nat>, items: map<nat, V>, id: nat)
    requires forall x | x in ids :: x in items
    ensures Find(ListOf(ids, items), id) == if id in ids then Some(items[id]) else None
    decreases |ids|
  {
    if ids != [] {
      assert ListOf(ids, items)[1..] == ListOf(ids[1..], items);
      FindIn(ids[1..], items, id);
      assert ids == [ids[0]] + ids[1..];
    }
  }

  lemma {:induction false} NothingWithout<V>(ids: seq<nat>, items: map<nat, V>, id: nat)
    requires (forall x | x in ids :: x in items) && id !in ids
    ensures Without(ListOf(ids, items), id) == ListOf(ids, items)
    decreases |ids|
  {
    if ids != [] {
      assert ListOf(ids, items)[1..] == ListOf(ids[1..], items);
      NothingWithout(ids[1..], items, id);
      assert ListOf(ids, items) == [ListOf(ids, items)[0]] + ListOf(ids, items)[1..];
    }
  }

  // ---- One use -----------------------------------------------------------

  datatype Op<V> = Put(id: nat, value: V) | Take(id: nat, now: int) | Evict(now: int)

  /** dead(now, v): v has expired by now. */
  function After<V>(list: seq<Entry<V>>, op: Op<V>, dead: (int, V) -> bool, cap: nat): seq<Entry<V>> {
    match op
    case Put(id, v) => ListPut(list, id, v, cap)
    case Take(id, _) => Without(list, id)
    case Evict(now) => Kept(list, DeadAt(dead, now))
  }

  function DeadAt<V>(dead: (int, V) -> bool, now: int): V -> bool { v => dead(now, v) }

  function AfterAll<V>(list: seq<Entry<V>>, ops: seq<Op<V>>, dead: (int, V) -> bool, cap: nat): seq<Entry<V>>
    decreases |ops|
  {
    if ops == [] then list else AfterAll(After(list, ops[0], dead, cap), ops[1..], dead, cap)
  }

  predicate NeverPuts<V>(ops: seq<Op<V>>, id: nat)
    decreases |ops|
  {
    ops == [] || (!(ops[0].Put? && ops[0].id == id) && NeverPuts(ops[1..], id))
  }

  predicate Takes<V>(list: seq<Entry<V>>, op: Op<V>, id: nat, dead: (int, V) -> bool) {
    op.Take? && op.id == id && Find(list, id).Some? && !dead(op.now, Find(list, id).value)
  }

  lemma {:induction false} KeptFromList<V>(list: seq<Entry<V>>, dead: V -> bool)
    ensures forall i | 0 <= i < |Kept(list, dead)| :: Kept(list, dead)[i] in list && !dead(Kept(list, dead)[i].value)
    ensures forall i | 0 <= i < |list| && !dead(list[i].value) :: list[i] in Kept(list, dead)
    ensures |Kept(list, dead)| <= |list|
    decreases |list|
  {
    if list != [] {
      var n := |list| - 1;
      KeptFromList(list[..n], dead);
      assert list == list[..n] + [list[n]];
    }
  }

  lemma {:induction false} KeptIsDistinct<V>(list: seq<Entry<V>>, dead: V -> bool)
    requires Distinct(list)
    ensures Distinct(Kept(list, dead))
    decreases |list|
  {
    if list != [] {
      var n := |list| - 1;
      KeptIsDistinct(list[..n], dead);
      KeptFromList(list[..n], dead);
      var kept := Kept(list[..n], dead);
      forall i | 0 <= i < |kept|
        ensures kept[i].id != list[n].id
      {
        assert kept[i] in list[..n];
      }
    }
  }

  lemma {:induction false} FoundIsThere<V>(list: seq<Entry<V>>, id: nat)
    ensures Find(list, id).Some? <==> Has(list, id)
    decreases |list|
  {
    if list != [] {
      FoundIsThere(list[1..], id);
      if list[0].id != id && Has(list, id) {
        var i :| 0 <= i < |list| && list[i].id == id;
        assert list[1..][i - 1].id == id;
      }
    }
  }

  lemma {:induction false} WithoutIsGone<V>(list: seq<Entry<V>>, id: nat)
    requires Distinct(list)
    ensures !Has(Without(list, id), id) && Distinct(Without(list, id))
    ensures forall i | 0 <= i < |Without(list, id)| :: Without(list, id)[i] in list
    decreases |list|
  {
    if list != [] && list[0].id != id {
      WithoutIsGone(list[1..], id);
      var rest := Without(list[1..], id);
      forall i | 0 <= i < |rest|
        ensures rest[i].id != list[0].id
      {
        assert rest[i] in list[1..];
      }
    }
  }

  lemma SublistLacks<V>(list: seq<Entry<V>>, part: seq<Entry<V>>, id: nat)
    requires !Has(list, id) && forall i | 0 <= i < |part| :: part[i] in list
    ensures !Has(part, id)
  {
    forall i | 0 <= i < |part|
      ensures part[i].id != id
    {
      assert part[i] in list;
    }
  }

  /** No operation but its own Put brings an ID back. */
  lemma AbsentStaysAbsent<V>(list: seq<Entry<V>>, op: Op<V>, id: nat, dead: (int, V) -> bool, cap: nat)
    requires Distinct(list) && !Has(list, id) && !(op.Put? && op.id == id)
    ensures !Has(After(list, op, dead, cap), id)
  {
    match op
    case Put(other, v) =>
    case Take(other, now) =>
      WithoutIsGone(list, other);
      SublistLacks(list, Without(list, other), id);
    case Evict(now) =>
      KeptFromList(list, DeadAt(dead, now));
      SublistLacks(list, Kept(list, DeadAt(dead, now)), id);
  }

  lemma OpsKeepDistinct<V>(list: seq<Entry<V>>, op: Op<V>, dead: (int, V) -> bool, cap: nat)
    requires Distinct(list)
    ensures Distinct(After(list, op, dead, cap))
  {
    match op
    case Put(id, v) =>
    case Take(id, now) => WithoutIsGone(list, id);
    case Evict(now) => KeptIsDistinct(list, DeadAt(dead, now));
  }

  lemma {:induction false} AbsentIsNotTaken<V>(list: seq<Entry<V>>, ops: seq<Op<V>>, id: nat, dead: (int, V) -> bool, cap: nat)
    requires Distinct(list) && !Has(list, id) && NeverPuts(ops, id)
    ensures Distinct(AfterAll(list, ops, dead, cap)) && !Has(AfterAll(list, ops, dead, cap), id)
    decreases |ops|
  {
    if ops != [] {
      OpsKeepDistinct(list, ops[0], dead, cap);
      AbsentStaysAbsent(list, ops[0], id, dead, cap);
      AbsentIsNotTaken(After(list, ops[0], dead, cap), ops[1..], id, dead, cap);
    }
  }

  /** Between two Puts of an ID at most one Take of it succeeds, whatever else
      is put, taken or evicted in between. */
  lemma OneTakePerPut<V>(list: seq<Entry<V>>, first: Op<V>, between: seq<Op<V>>, second: Op<V>, id: nat,
                         dead: (int, V) -> bool, cap: nat)
    requires Distinct(list) && Takes(list, first, id, dead) && NeverPuts(between, id)
    ensures !Takes(AfterAll(After(list, first, dead, cap), between, dead, cap), second, id, dead)
  {
    WithoutIsGone(list, id);
    AbsentIsNotTaken(Without(list, id), between, id, dead, cap);
    FoundIsThere(AfterAll(Without(list, id), between, dead, cap), id);
  }

  /** Every operation keeps at most cap distinct entries, in the order in which
      they were first put, and a Put is found until it is taken or evicted. */
  lemma ListStaysBounded<V>(list: seq<Entry<V>>, op: Op<V>, dead: (int, V) -> bool, cap: nat)
    requires Distinct(list) && |list| <= cap && cap > 0
    ensures Distinct(After(list, op, dead, cap)) && |After(list, op, dead, cap)| <= cap
    ensures op.Put? ==> Find(After(list, op, dead, cap), op.id) == Some(op.value)
  {
    OpsKeepDistinct(list, op, dead, cap);
    match op
    case Put(id, v) => PutIsFound(list, id, v, cap);
    case Take(id, now) => WithoutShrinks(list, id);
    case Evict(now) => KeptFromList(list, DeadAt(dead, now));
  }

  lemma {:induction false} WithoutShrinks<V>(list: seq<Entry<V>>, id: nat)
    ensures |Without(list, id)| <= |list|
    decreases |list|
  {
    if list != [] && list[0].id != id {
      WithoutShrinks(list[1..], id);
    }
  }

  lemma PutIsFound<V>(list: seq<Entry<V>>, id: nat, v: V, cap: nat)
    requires Distinct(list) && |list| <= cap && cap > 0
    ensures Find(ListPut(list, id, v, cap), id) == Some(v)
  {
    var after := ListPut(list, id, v, cap);
    if Has(list, id) {
      var k :| 0 <= k < |list| && list[k].id == id;
      assert after[k] == Entry(id, v) && Distinct(after);
      FindAt(after, k);
    } else {
      assert after[|after| - 1] == Entry(id, v) && Distinct(after);
      FindAt(after, |after| - 1);
    }
  }

  lemma {:induction false} FindAt<V>(list: seq<Entry<V>>, i: nat)
    requires Distinct(list) && i < |list|
    ensures Find(list, list[i].id) == Some(list[i].value)
    decreases |list|
  {
    if i > 0 {
      FindAt(list[1..], i - 1);
    }
  }
}
