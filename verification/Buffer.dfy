/** The circular buffer between a block and its readers. */
module Buffers {

  datatype Tag = Tag(offset: nat, key: int, value: int, srcid: int)

  /** A tag in a buffer, with the blocks that have deleted it for themselves. */
  datatype Item = Item(tag: Tag, hidden: seq<int>)

  function IndexAdd(a: nat, b: nat, size: nat): nat
    requires a < size && b <= size
  {
    if a + b >= size then a + b - size else a + b
  }

  function IndexSub(a: nat, b: nat, size: nat): nat
    requires a < size && b <= size
  {
    if a < b then a + size - b else a - b
  }

  /** The tags that pruning up to an offset leaves. */
  function Pruned(tags: seq<Tag>, maxTime: nat): (r: seq<Tag>)
    ensures forall t :: t in r <==> t in tags && t.offset >= maxTime
  {
    if tags == [] then []
    else if tags[0].offset < maxTime then Pruned(tags[1..], maxTime)
    else [tags[0]] + Pruned(tags[1..], maxTime)
  }

  /** The tags in [start, end), in the order they were added. */
  function InRange(tags: seq<Tag>, start: nat, end: nat): (r: seq<Tag>)
    ensures forall t :: t in r <==> t in tags && start <= t.offset < end
  {
    if tags == [] then []
    else if start <= tags[0].offset < end then [tags[0]] + InRange(tags[1..], start, end)
    else InRange(tags[1..], start, end)
  }

  lemma {:induction false} PrunedConcat(a: seq<Tag>, b: seq<Tag>, maxTime: nat)
    ensures Pruned(a + b, maxTime) == Pruned(a, maxTime) + Pruned(b, maxTime)
  {
    if a == [] {
      assert a + b == b;
    } else {
      assert (a + b)[1..] == a[1..] + b;
      PrunedConcat(a[1..], b, maxTime);
    }
  }

  lemma {:induction false} InRangeConcat(a: seq<Tag>, b: seq<Tag>, start: nat, end: nat)
    ensures InRange(a + b, start, end) == InRange(a, start, end) + InRange(b, start, end)
  {
    if a == [] {
      assert a + b == b;
    } else {
      assert (a + b)[1..] == a[1..] + b;
      InRangeConcat(a[1..], b, start, end);
    }
  }

  // ---- Tags with marks ----

  /** The items that pruning up to an offset leaves. */
  function PrunedItems(items: seq<Item>, maxTime: nat): seq<Item> {
    if items == [] then []
    else if items[0].tag.offset < maxTime then PrunedItems(items[1..], maxTime)
    else [items[0]] + PrunedItems(items[1..], maxTime)
  }

  /** The tags that a block has not deleted for itself. */
  function Visible(items: seq<Item>, id: int): seq<Tag> {
    if items == [] then []
    else if id in items[0].hidden then Visible(items[1..], id)
    else [items[0].tag] + Visible(items[1..], id)
  }

  /** Pruning takes the same tags from every block. */
  lemma {:induction false} VisiblePruned(items: seq<Item>, maxTime: nat, id: int)
    ensures Visible(PrunedItems(items, maxTime), id) == Pruned(Visible(items, id), maxTime)
  {
    if items != [] {
      VisiblePruned(items[1..], maxTime, id);
      var rest := PrunedItems(items[1..], maxTime);
      assert ([items[0]] + rest)[1..] == rest;
      var seen := Visible(items[1..], id);
      assert ([items[0].tag] + seen)[1..] == seen;
    }
  }

  lemma {:induction false} VisibleConcat(a: seq<Item>, b: seq<Item>, id: int)
    ensures Visible(a + b, id) == Visible(a, id) + Visible(b, id)
  {
    if a == [] {
      assert a + b == b;
    } else {
      assert (a + b)[1..] == a[1..] + b;
      VisibleConcat(a[1..], b, id);
    }
  }

  function Hide(item: Item, tag: Tag, id: int): Item {
    if item.tag == tag then Item(item.tag, item.hidden + [id]) else item
  }

  function HideAll(items: seq<Item>, tag: Tag, id: int): (r: seq<Item>)
    ensures |r| == |items| && forall i :: 0 <= i < |items| ==> r[i] == Hide(items[i], tag, id)
  {
    seq(|items|, i requires 0 <= i < |items| => Hide(items[i], tag, id))
  }

  function Without(tags: seq<Tag>, tag: Tag): (r: seq<Tag>)
    ensures forall t :: t in r <==> t in tags && t != tag
  {
    if tags == [] then []
    else if tags[0] == tag then Without(tags[1..], tag)
    else [tags[0]] + Without(tags[1..], tag)
  }

  /** A deleted tag is gone for the block that has deleted it, and for no other. */
  lemma {:induction false} HiddenFromOne(items: seq<Item>, tag: Tag, id: int, other: int)
    ensures Visible(HideAll(items, tag, id), id) == Without(Visible(items, id), tag)
    ensures other != id ==> Visible(HideAll(items, tag, id), other) == Visible(items, other)
  {
    if items != [] {
      HiddenFromOne(items[1..], tag, id, other);
      assert HideAll(items, tag, id)[1..] == HideAll(items[1..], tag, id);
      var seen := Visible(items[1..], id);
      assert ([items[0].tag] + seen)[1..] == seen;
    }
  }

  // ---- The buffer ----

  class Reader<T> {
    var readIndex: nat
    var absReadOffset: nat
    /** What lay in the preloaded slots when the reader was added, and how much had been published. */
    ghost const past: seq<T>
    ghost const joined: nat

    constructor (readIndex: nat, ghost past: seq<T>, ghost joined: nat)
      ensures this.readIndex == readIndex && this.past == past && this.joined == joined && absReadOffset == 0
    {
      this.readIndex, absReadOffset := readIndex, 0;
      this.past, this.joined := past, joined;
    }
  }

  class Buffer<T> {
    const base: array<T>
    const zero: T
    var writeIndex: nat
    var absWriteOffset: nat
    var readers: seq<Reader<T>>
    var itemTags: seq<Item>
    var lastMinItemsRead: nat
    /** Everything that was ever published, from the first item on. */
    ghost var stream: seq<T>

    ghost predicate Valid()
      reads this`writeIndex, this`absWriteOffset, this`readers, this`stream, base, readers
    {
      && 0 < base.Length && writeIndex < base.Length && absWriteOffset == |stream|
      && (forall i, j :: 0 <= i < j < |readers| ==> readers[i] != readers[j])
      && forall i :: 0 <= i < |readers| ==> ReaderValid(readers[i])
    }

    /** What a reader is to see: what was preloaded, and then what was published since. */
    ghost function Sees(r: Reader<T>): seq<T>
      reads this`stream
    {
      r.past + if r.joined <= |stream| then stream[r.joined..] else []
    }

    ghost function Unread(r: Reader<T>): int
      reads this`stream, r
    {
      |Sees(r)| - r.absReadOffset
    }

    /** The slots from the read index on hold exactly the unread items. */
    ghost predicate ReaderValid(r: Reader<T>)
      requires writeIndex < base.Length
      reads this`writeIndex, this`stream, base, r
    {
      && r.readIndex < base.Length && r.joined <= |stream|
      && 0 <= Unread(r) < base.Length
      && writeIndex == IndexAdd(r.readIndex, Unread(r), base.Length)
      && forall k :: 0 <= k < Unread(r) ==>
           base[IndexAdd(r.readIndex, k, base.Length)] == Sees(r)[r.absReadOffset + k]
    }

    /** Every reader leaves room for n more items. */
    ghost predicate Room(n: int)
      reads this`readers, this`stream, readers
    {
      n < base.Length && forall i :: 0 <= i < |readers| ==> Unread(readers[i]) + n < base.Length
    }

    constructor (nitems: nat, zero: T)
      requires nitems > 0
      ensures Valid() && stream == [] && readers == [] && fresh(base)
      ensures base.Length == nitems && this.zero == zero && itemTags == [] && lastMinItemsRead == 0
      ensures forall k :: 0 <= k < nitems ==> base[k] == zero
    {
      base := new T[nitems](_ => zero);
      this.zero := zero;
      writeIndex, absWriteOffset, readers, itemTags, lastMinItemsRead, stream := 0, 0, [], [], 0, [];
    }

    /** The n slots behind the write index. */
    ghost function Behind(n: nat): (s: seq<T>)
      requires writeIndex < base.Length && n < base.Length
      reads this, base
      ensures |s| == n
    {
      seq(n, k requires 0 <= k < n && writeIndex < base.Length && n < base.Length reads this, base =>
            base[IndexAdd(IndexSub(writeIndex, n, base.Length), k, base.Length)])
    }

    /** A new reader starts so many slots behind the write index, and sees what lies there: zeros as
        long as nothing is written. */
    method AddReader(nzeroPreload: nat) returns (r: Reader<T>)
      requires Valid() && nzeroPreload < base.Length
      modifies this`readers
      ensures Valid() && fresh(r) && readers == old(readers) + [r]
      ensures r.absReadOffset == 0 && Sees(r) == Behind(nzeroPreload)
      ensures (forall k :: 0 <= k < base.Length ==> base[k] == zero) ==> Sees(r) == seq(nzeroPreload, _ => zero)
    {
      r := new Reader(IndexSub(writeIndex, nzeroPreload, base.Length), Behind(nzeroPreload), |stream|);
      readers := readers + [r];
      assert Sees(r) == Behind(nzeroPreload);
      assert ReaderValid(r);
      assert forall i :: 0 <= i < |old(readers)| ==> ReaderValid(readers[i]);
    }

    function ItemsAvailable(r: Reader<T>): (n: nat)
      requires Valid() && r in readers
      reads this, base, readers
      ensures n == Unread(r)
    {
      assert ReaderValid(r);
      IndexSub(writeIndex, r.readIndex, base.Length)
    }

    /** Stores into the free part, ahead of the write index. Nothing unread is touched. */
    method Store(k: nat, x: T)
      requires Valid() && Room(k + 1)
      modifies base
      ensures Valid() && k < base.Length && base[IndexAdd(writeIndex, k, base.Length)] == x
      ensures forall j :: 0 <= j < base.Length && j != k ==>
                base[IndexAdd(writeIndex, j, base.Length)] == old(base[IndexAdd(writeIndex, j, base.Length)])
    {
      base[IndexAdd(writeIndex, k, base.Length)] := x;
      forall i | 0 <= i < |readers|
        ensures ReaderValid(readers[i])
      {
        assert old(ReaderValid(readers[i]));
      }
    }

    /** The items that lie ready ahead of the write index. */
    ghost function Ready(n: nat): (s: seq<T>)
      requires writeIndex < base.Length && n <= base.Length
      reads this, base
      ensures |s| == n
    {
      seq(n, k requires 0 <= k < n && writeIndex < base.Length && n <= base.Length reads this, base =>
            base[IndexAdd(writeIndex, k, base.Length)])
    }

    method UpdateWritePointer(nitems: nat)
      requires Valid() && Room(nitems)
      modifies this`writeIndex, this`absWriteOffset, this`stream
      ensures Valid() && stream == old(stream) + old(Ready(nitems))
      ensures forall i :: 0 <= i < |readers| ==> Unread(readers[i]) == old(Unread(readers[i])) + nitems
    {
      ghost var ready := Ready(nitems);
      writeIndex := IndexAdd(writeIndex, nitems, base.Length);
      absWriteOffset := absWriteOffset + nitems;
      stream := stream + ready;
      forall i | 0 <= i < |readers|
        ensures ReaderValid(readers[i])
      {
        assert old(ReaderValid(readers[i]));
        Published(readers[i], nitems, old(writeIndex), old(stream), ready);
      }
    }

    lemma Published(r: Reader<T>, n: nat, oldIndex: nat, before: seq<T>, ready: seq<T>)
      requires oldIndex < base.Length && n < base.Length && writeIndex == IndexAdd(oldIndex, n, base.Length)
      requires stream == before + ready && |ready| == n
      requires forall k :: 0 <= k < n ==> ready[k] == base[IndexAdd(oldIndex, k, base.Length)]
      requires r.readIndex < base.Length && r.joined <= |before| && 0 <= Unread(r) - n && Unread(r) < base.Length
      requires oldIndex == IndexAdd(r.readIndex, Unread(r) - n, base.Length)
      requires forall k :: 0 <= k < Unread(r) - n ==>
                 base[IndexAdd(r.readIndex, k, base.Length)] == (r.past + before[r.joined..])[r.absReadOffset + k]
      ensures ReaderValid(r)
    {
      assert stream[r.joined..] == before[r.joined..] + ready;
      forall k | 0 <= k < Unread(r)
        ensures base[IndexAdd(r.readIndex, k, base.Length)] == Sees(r)[r.absReadOffset + k]
      {
        if k >= Unread(r) - n {
          var j := k - (Unread(r) - n);
          assert IndexAdd(oldIndex, j, base.Length) == IndexAdd(r.readIndex, k, base.Length);
          assert Sees(r)[r.absReadOffset + k] == ready[j];
        } else {
          assert Sees(r)[r.absReadOffset + k] == (r.past + before[r.joined..])[r.absReadOffset + k];
        }
      }
    }

    /** One of the items a reader may look at. */
    method Peek(r: Reader<T>, k: nat) returns (x: T)
      requires Valid() && r in readers && k < Unread(r)
      ensures x == Sees(r)[r.absReadOffset + k]
    {
      assert ReaderValid(r);
      x := base[IndexAdd(r.readIndex, k, base.Length)];
    }

    method UpdateReadPointer(r: Reader<T>, nitems: nat)
      requires Valid() && r in readers && nitems <= Unread(r)
      modifies r
      ensures Valid() && r.absReadOffset == old(r.absReadOffset) + nitems
    {
      assert ReaderValid(r);
      ghost var from, at := r.readIndex, r.absReadOffset;
      r.readIndex := IndexAdd(r.readIndex, nitems, base.Length);
      r.absReadOffset := r.absReadOffset + nitems;
      forall k | 0 <= k < Unread(r)
        ensures base[IndexAdd(r.readIndex, k, base.Length)] == Sees(r)[r.absReadOffset + k]
      {
        assert IndexAdd(r.readIndex, k, base.Length) == IndexAdd(from, nitems + k, base.Length);
        assert base[IndexAdd(from, nitems + k, base.Length)] == Sees(r)[at + (nitems + k)];
      }
      forall i | 0 <= i < |readers|
        ensures ReaderValid(readers[i])
      {
        if readers[i] != r {
          assert old(ReaderValid(readers[i]));
        }
      }
    }

    /** What the writer may fill: the fullest reader decides. Looking also prunes the tags that
        every reader had passed when the writer last saw them move. */
    method SpaceAvailable() returns (space: nat)
      requires Valid()
      modifies this`itemTags, this`lastMinItemsRead
      ensures Valid() && Room(space)
      ensures readers == [] ==>
                && space == base.Length - 1
                && itemTags == old(itemTags) && lastMinItemsRead == old(lastMinItemsRead)
      ensures readers != [] ==>
                && (exists i :: 0 <= i < |readers| && Unread(readers[i]) + space == base.Length - 1)
                && (forall i :: 0 <= i < |readers| ==> lastMinItemsRead <= readers[i].absReadOffset)
                && (exists i :: 0 <= i < |readers| && readers[i].absReadOffset == lastMinItemsRead)
                && itemTags == if lastMinItemsRead == old(lastMinItemsRead) then old(itemTags)
                               else PrunedItems(old(itemTags), old(lastMinItemsRead))
    {
      if readers == [] {
        return base.Length - 1;
      }
      var mostData, minItemsRead := Extremes();
      if minItemsRead != lastMinItemsRead {
        PruneTags(lastMinItemsRead);
        lastMinItemsRead := minItemsRead;
      }
      space := base.Length - mostData - 1;
    }

    /** How much the fullest reader has to read, and how far the slowest has read. */
    method Extremes() returns (mostData: nat, minItemsRead: nat)
      requires Valid() && readers != []
      ensures mostData < base.Length
      ensures exists i :: 0 <= i < |readers| && Unread(readers[i]) == mostData
      ensures exists i :: 0 <= i < |readers| && readers[i].absReadOffset == minItemsRead
      ensures forall j :: 0 <= j < |readers| ==>
                Unread(readers[j]) <= mostData && minItemsRead <= readers[j].absReadOffset
    {
      mostData := ItemsAvailable(readers[0]);
      minItemsRead := readers[0].absReadOffset;
      ghost var fullest, slowest := 0, 0;
      for i := 1 to |readers|
        invariant 0 <= fullest < i && 0 <= slowest < i
        invariant mostData == Unread(readers[fullest]) && minItemsRead == readers[slowest].absReadOffset
        invariant forall j :: 0 <= j < i ==> Unread(readers[j]) <= mostData && minItemsRead <= readers[j].absReadOffset
      {
        if ItemsAvailable(readers[i]) > mostData {
          mostData, fullest := ItemsAvailable(readers[i]), i;
        }
        if readers[i].absReadOffset < minItemsRead {
          minItemsRead, slowest := readers[i].absReadOffset, i;
        }
      }
      assert ReaderValid(readers[fullest]);
    }

    /** Erasing restarts the scan; what is left keeps its order. */
    method PruneTags(maxTime: nat)
      modifies this`itemTags
      ensures itemTags == PrunedItems(old(itemTags), maxTime)
    {
      var i := 0;
      while i < |itemTags|
        invariant 0 <= i <= |itemTags|
        invariant PrunedItems(itemTags, maxTime) == PrunedItems(old(itemTags), maxTime)
        invariant forall j :: 0 <= j < i ==> itemTags[j].tag.offset >= maxTime
        decreases |itemTags|, |itemTags| - i
      {
        if itemTags[i].tag.offset < maxTime {
          PruneOne(itemTags, i, maxTime);
          itemTags := itemTags[..i] + itemTags[i + 1..];
          i := 0;
        } else {
          i := i + 1;
        }
      }
      NothingToPrune(itemTags, maxTime);
    }

    method AddItemTag(tag: Tag)
      modifies this`itemTags
      ensures itemTags == old(itemTags) + [Item(tag, [])]
    {
      itemTags := itemTags + [Item(tag, [])];
    }

    /** Marks every such tag as deleted for one block. */
    method RemoveItemTag(tag: Tag, id: int)
      modifies this`itemTags
      ensures itemTags == HideAll(old(itemTags), tag, id)
      ensures Visible(itemTags, id) == Without(old(Visible(itemTags, id)), tag)
      ensures forall other :: other != id ==> Visible(itemTags, other) == old(Visible(itemTags, other))
    {
      for i := 0 to |itemTags|
        invariant |itemTags| == |old(itemTags)|
        invariant forall k :: 0 <= k < |itemTags| ==>
                    itemTags[k] == if k < i then Hide(old(itemTags[k]), tag, id) else old(itemTags[k])
      {
        if itemTags[i].tag == tag {
          itemTags := itemTags[i := Item(itemTags[i].tag, itemTags[i].hidden + [id])];
        }
      }
      assert itemTags == HideAll(old(itemTags), tag, id);
      forall other: int
        ensures Visible(itemTags, id) == Without(old(Visible(itemTags, id)), tag)
        ensures other != id ==> Visible(itemTags, other) == old(Visible(itemTags, other))
      {
        HiddenFromOne(old(itemTags), tag, id, other);
      }
    }

    /** The tags of a window, in the order they were added, but for those that the block has deleted. */
    method GetTagsInRange(absStart: nat, absEnd: nat, id: int) returns (v: seq<Tag>)
      ensures v == InRange(Visible(itemTags, id), absStart, absEnd)
    {
      v := [];
      for i := 0 to |itemTags|
        invariant v == InRange(Visible(itemTags[..i], id), absStart, absEnd)
      {
        assert itemTags[..i + 1] == itemTags[..i] + [itemTags[i]];
        VisibleConcat(itemTags[..i], [itemTags[i]], id);
        OneVisible(itemTags[i], id, absStart, absEnd);
        InRangeConcat(Visible(itemTags[..i], id), Visible([itemTags[i]], id), absStart, absEnd);
        if absStart <= itemTags[i].tag.offset < absEnd && id !in itemTags[i].hidden {
          v := v + [itemTags[i].tag];
        }
      }
      assert itemTags[..|itemTags|] == itemTags;
    }
  }

  lemma OneVisible(item: Item, id: int, start: nat, end: nat)
    ensures InRange(Visible([item], id), start, end) ==
            if start <= item.tag.offset < end && id !in item.hidden then [item.tag] else []
  {
    assert [item][1..] == [] && [item.tag][1..] == [];
    assert Visible([item], id) == if id in item.hidden then [] else [item.tag];
  }

  lemma {:induction false} PruneOne(items: seq<Item>, i: nat, maxTime: nat)
    requires i < |items| && items[i].tag.offset < maxTime
    ensures PrunedItems(items[..i] + items[i + 1..], maxTime) == PrunedItems(items, maxTime)
  {
    if i > 0 {
      PruneOne(items[1..], i - 1, maxTime);
      assert (items[..i] + items[i + 1..])[1..] == items[1..][..i - 1] + items[1..][i..];
    } else {
      assert items[..i] + items[i + 1..] == items[1..];
    }
  }

  lemma {:induction false} NothingToPrune(items: seq<Item>, maxTime: nat)
    requires forall j :: 0 <= j < |items| ==> items[j].tag.offset >= maxTime
    ensures PrunedItems(items, maxTime) == items
  {
    if items != [] {
      NothingToPrune(items[1..], maxTime);
    }
  }

  // ---- Any interleaving of one writer and its readers ----

  /** What the writer or a reader does in one go; a lock is held in the looks and the advances only. */
  datatype Action<T> =
    | LookForRoom
    | Put(x: T)                    // store one more item ahead of the write pointer
    | Publish                      // advance the write pointer over what was stored
    | LookForItems(reader: nat)
    | Read(reader: nat, k: nat)    // read the k-th item ahead of the read pointer
    | Advance(reader: nat, n: nat) // advance the read pointer over n items that were read

  /** What a reader has got by now, how many items it last saw ahead of it, and those of them that it
      has read since it last moved. */
  datatype View<T> = View(got: seq<T>, seen: nat, held: map<nat, T>)

  ghost predicate Follows<T>(sees: seq<T>, at: nat, v: View<T>) {
    && at + v.seen <= |sees| && v.got == sees[..at]
    && forall k :: k in v.held ==> k < v.seen && v.held[k] == sees[at + k]
  }

  lemma FollowsMore<T>(sees: seq<T>, more: seq<T>, at: nat, v: View<T>)
    requires Follows(sees, at, v)
    ensures Follows(sees + more, at, v)
  {
    assert (sees + more)[..at] == sees[..at];
  }

  function Moved<T>(v: View<T>, n: nat): View<T>
    requires n <= v.seen && forall k :: 0 <= k < n ==> k in v.held
  {
    View(v.got + seq(n, k requires 0 <= k < n && k in v.held => v.held[k]), v.seen - n, map[])
  }

  lemma FollowsMoved<T>(sees: seq<T>, at: nat, v: View<T>, n: nat)
    requires Follows(sees, at, v) && n <= v.seen && forall k :: 0 <= k < n ==> k in v.held
    ensures Follows(sees, at + n, Moved(v, n))
  {
    assert Moved(v, n).got == sees[..at + n];
  }

  /** Each reader has got exactly the items before its read pointer, and holds true copies of some ahead. */
  ghost predicate AllFollow<T>(buf: Buffer<T>, views: seq<View<T>>)
    reads buf`readers, buf`stream, buf.readers
  {
    |views| == |buf.readers| && forall i :: 0 <= i < |views| ==> FollowsAt(buf, views, i)
  }

  ghost predicate FollowsAt<T>(buf: Buffer<T>, views: seq<View<T>>, i: nat)
    requires i < |views| == |buf.readers|
    reads buf`readers, buf`stream, buf.readers
  {
    Follows(buf.Sees(buf.readers[i]), buf.readers[i].absReadOffset, views[i])
  }

  /** What the writer last saw as room still is, and what it has stored ahead is still there. */
  ghost predicate Ahead<T>(buf: Buffer<T>, room: nat, stored: seq<T>)
    reads buf, buf.base, buf.readers
  {
    && |stored| <= room < buf.base.Length && (room == 0 || buf.Room(room))
    && buf.writeIndex < buf.base.Length && buf.Ready(|stored|) == stored
  }

  /** Plays a script in which each side goes by what it last saw, however stale: what it did not
      see room or items for, it does not do. The buffer's stream grows by exactly the items that
      were put before each advance of the write pointer; and each reader gets what was preloaded and
      then that stream, in order, whatever is stored while it is reading. */
  method Play<T>(buf: Buffer<T>, script: seq<Action<T>>) returns (views: seq<View<T>>, sent: seq<T>)
    requires buf.Valid() && forall i :: 0 <= i < |buf.readers| ==> buf.readers[i].absReadOffset == 0
    modifies buf, buf.base, buf.readers
    ensures buf.Valid() && buf.readers == old(buf.readers) && AllFollow(buf, views)
    ensures buf.stream == old(buf.stream) + sent
  {
    views := seq(|buf.readers|, _ => View([], 0, map[]));
    Starts(buf, views);
    views, sent := PlayOn(buf, script, views);
  }

  method PlayOn<T>(buf: Buffer<T>, script: seq<Action<T>>, views0: seq<View<T>>)
    returns (views: seq<View<T>>, sent: seq<T>)
    requires buf.Valid() && Ahead(buf, 0, []) && AllFollow(buf, views0)
    modifies buf, buf.base, buf.readers
    ensures buf.Valid() && buf.readers == old(buf.readers) && AllFollow(buf, views)
    ensures buf.stream == old(buf.stream) + sent
  {
    views, sent := views0, [];
    var room: nat, stored: seq<T> := 0, [];
    for a := 0 to |script|
      invariant buf.Valid() && buf.readers == old(buf.readers) && buf.stream == old(buf.stream) + sent
      invariant Ahead(buf, room, stored) && AllFollow(buf, views)
    {
      var more := if script[a].Publish? then stored else [];
      views, room, stored := Act(buf, script[a], views, room, stored);
      sent := sent + more;
    }
  }

  lemma Starts<T>(buf: Buffer<T>, views: seq<View<T>>)
    requires buf.Valid() && forall i :: 0 <= i < |buf.readers| ==> buf.readers[i].absReadOffset == 0
    requires |views| == |buf.readers| && forall i :: 0 <= i < |views| ==> views[i] == View([], 0, map[])
    ensures Ahead(buf, 0, []) && AllFollow(buf, views)
  {
  }

  method Act<T>(buf: Buffer<T>, action: Action<T>, views: seq<View<T>>, room: nat, stored: seq<T>)
    returns (views': seq<View<T>>, room': nat, stored': seq<T>)
    requires buf.Valid() && Ahead(buf, room, stored) && AllFollow(buf, views)
    modifies buf, buf.base, buf.readers
    ensures buf.Valid() && buf.readers == old(buf.readers)
    ensures buf.stream == old(buf.stream) + (if action.Publish? then stored else [])
    ensures stored' == if action.Put? && |stored| < room then stored + [action.x]
                       else if action.Publish? || action.LookForRoom? then [] else stored
    ensures Ahead(buf, room', stored') && AllFollow(buf, views')
  {
    views', room', stored' := views, room, stored;
    match action {
      case LookForRoom =>
        room', stored' := LookAhead(buf, views);
      case Put(x) =>
        stored' := PutOne(buf, x, views, room, stored);
      case Publish =>
        room', stored' := PublishStored(buf, views, room, stored);
      case LookForItems(i) =>
        views' := LookBehind(buf, i, views);
      case Read(i, k) =>
        views' := ReadOne(buf, i, k, views);
      case Advance(i, n) =>
        views' := AdvanceOver(buf, i, n, views, room, stored);
    }
  }

  method LookAhead<T>(buf: Buffer<T>, ghost views: seq<View<T>>) returns (room: nat, stored: seq<T>)
    requires buf.Valid() && AllFollow(buf, views)
    modifies buf`itemTags, buf`lastMinItemsRead
    ensures buf.Valid() && Ahead(buf, room, stored) && stored == [] && AllFollow(buf, views)
  {
    room := buf.SpaceAvailable();
    stored := [];
  }

  method PutOne<T>(buf: Buffer<T>, x: T, ghost views: seq<View<T>>, room: nat, stored: seq<T>) returns (stored': seq<T>)
    requires buf.Valid() && Ahead(buf, room, stored) && AllFollow(buf, views)
    modifies buf.base
    ensures buf.Valid() && Ahead(buf, room, stored') && AllFollow(buf, views)
    ensures stored' == if |stored| < room then stored + [x] else stored
  {
    stored' := stored;
    if |stored| < room {
      ghost var before := buf.Ready(|stored|);
      buf.Store(|stored|, x);
      stored' := stored + [x];
      assert forall k :: 0 <= k < |stored| ==> buf.Ready(|stored'|)[k] == before[k];
      assert buf.Ready(|stored'|) == stored';
      forall i | 0 <= i < |views|
        ensures FollowsAt(buf, views, i)
      {
        assert old(FollowsAt(buf, views, i));
      }
    }
  }

  method PublishStored<T>(buf: Buffer<T>, ghost views: seq<View<T>>, room: nat, stored: seq<T>)
    returns (room': nat, stored': seq<T>)
    requires buf.Valid() && Ahead(buf, room, stored) && AllFollow(buf, views)
    modifies buf`writeIndex, buf`absWriteOffset, buf`stream
    ensures buf.Valid() && buf.stream == old(buf.stream) + stored && stored' == []
    ensures Ahead(buf, room', stored') && AllFollow(buf, views)
  {
    ghost var before := buf.stream;
    NothingNeedsNoRoom(buf);
    buf.UpdateWritePointer(|stored|);
    forall i | 0 <= i < |views|
      ensures FollowsAt(buf, views, i)
    {
      assert old(FollowsAt(buf, views, i)) && old(buf.ReaderValid(buf.readers[i]));
      PublishedTo(buf, views, i, before, stored);
    }
    room', stored' := room - |stored|, [];
  }

  lemma NothingNeedsNoRoom<T>(buf: Buffer<T>)
    requires buf.Valid()
    ensures buf.Room(0)
  {
    assert forall i :: 0 <= i < |buf.readers| ==> buf.ReaderValid(buf.readers[i]);
  }

  lemma PublishedTo<T>(buf: Buffer<T>, views: seq<View<T>>, i: nat, before: seq<T>, more: seq<T>)
    requires i < |views| == |buf.readers| && buf.stream == before + more && buf.readers[i].joined <= |before|
    requires Follows(buf.readers[i].past + before[buf.readers[i].joined..], buf.readers[i].absReadOffset, views[i])
    ensures FollowsAt(buf, views, i)
  {
    var r := buf.readers[i];
    assert buf.stream[r.joined..] == before[r.joined..] + more;
    assert buf.Sees(r) == (r.past + before[r.joined..]) + more;
    FollowsMore(r.past + before[r.joined..], more, r.absReadOffset, views[i]);
  }

  method OneView<T>(buf: Buffer<T>, views: seq<View<T>>, i: nat, v: View<T>) returns (views': seq<View<T>>)
    requires AllFollow(buf, views) && i < |views| && Follows(buf.Sees(buf.readers[i]), buf.readers[i].absReadOffset, v)
    ensures views' == views[i := v] && AllFollow(buf, views')
  {
    views' := views[i := v];
    forall j | 0 <= j < |views|
      ensures FollowsAt(buf, views', j)
    {
      assert FollowsAt(buf, views, j);
    }
  }

  method LookBehind<T>(buf: Buffer<T>, i: nat, views: seq<View<T>>) returns (views': seq<View<T>>)
    requires buf.Valid() && AllFollow(buf, views)
    ensures AllFollow(buf, views')
  {
    views' := views;
    if i < |views| {
      assert FollowsAt(buf, views, i);
      assert buf.ReaderValid(buf.readers[i]);
      var n := buf.ItemsAvailable(buf.readers[i]);
      views' := OneView(buf, views, i, views[i].(seen := n));
    }
  }

  method ReadOne<T>(buf: Buffer<T>, i: nat, k: nat, views: seq<View<T>>) returns (views': seq<View<T>>)
    requires buf.Valid() && AllFollow(buf, views)
    ensures AllFollow(buf, views')
  {
    views' := views;
    if i < |views| && k < views[i].seen {
      assert FollowsAt(buf, views, i);
      var x := buf.Peek(buf.readers[i], k);
      views' := OneView(buf, views, i, views[i].(held := views[i].held[k := x]));
    }
  }

  method AdvanceOver<T>(buf: Buffer<T>, i: nat, n: nat, views: seq<View<T>>, ghost room: nat, ghost stored: seq<T>)
    returns (views': seq<View<T>>)
    requires buf.Valid() && Ahead(buf, room, stored) && AllFollow(buf, views)
    modifies buf.readers
    ensures buf.Valid() && Ahead(buf, room, stored) && AllFollow(buf, views')
  {
    views' := views;
    if i < |views| && n <= views[i].seen && forall k :: 0 <= k < n ==> k in views[i].held {
      assert FollowsAt(buf, views, i);
      FollowsMoved(buf.Sees(buf.readers[i]), buf.readers[i].absReadOffset, views[i], n);
      MovePointer(buf, i, n, room, stored);
      views' := views[i := Moved(views[i], n)];
      forall j | 0 <= j < |views|
        ensures FollowsAt(buf, views', j)
      {
        assert old(FollowsAt(buf, views, j));
      }
    }
  }

  method MovePointer<T>(buf: Buffer<T>, i: nat, n: nat, ghost room: nat, ghost stored: seq<T>)
    requires buf.Valid() && i < |buf.readers| && n <= buf.Unread(buf.readers[i]) && Ahead(buf, room, stored)
    modifies buf.readers[i]
    ensures buf.Valid() && Ahead(buf, room, stored)
    ensures buf.readers[i].absReadOffset == old(buf.readers[i].absReadOffset) + n
  {
    buf.UpdateReadPointer(buf.readers[i], n);
  }
}
